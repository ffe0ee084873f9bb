/**
  The panel of `pull_relay_data.py`: `build_panel` fetches and parses one
  consensus per day and intersects the days' fingerprint sets, `write_csv`
  writes one row per day and common relay, and `main` validates the hours and
  picks the exit status.
 */
module Panel {
  import opened Wrappers
  import opened PyStr
  import opened Calendar
  import opened Consensus
  import opened Archive

  /** One element of `per_day`: a day and its fingerprint-to-bandwidth mapping. */
  datatype DayMapping = DayMapping(day: int, mapping: map<string, int>)

  /** What `build_panel` returns: `per_day` and `common_relays`. */
  datatype PanelData = PanelData(perDay: seq<DayMapping>, common: set<string>)

  /** The fingerprints present on every day; empty when there are no days. */
  function CommonKeys(pd: seq<DayMapping>): (common: set<string>)
    ensures |pd| == 0 ==> common == {}
    ensures forall fp :: fp in common <==> |pd| > 0 && forall i :: 0 <= i < |pd| ==> fp in pd[i].mapping
    decreases |pd|
  {
    if |pd| == 0 then {}
    else if |pd| == 1 then pd[0].mapping.Keys
    else
      var front := pd[..|pd| - 1];
      assert forall i :: 0 <= i < |front| ==> front[i] == pd[i];
      CommonKeys(front) * pd[|pd| - 1].mapping.Keys
  }

  /** The loop of `build_panel` over the days: fetch, parse, append; the first day that cannot be fetched raises. */
  function CollectDays(st: CacheState, days: seq<int>, hours: seq<int>, o: Oracles)
    : (Result<seq<DayMapping>, DayError>, CacheState)
    decreases |days|
  {
    if |days| == 0 then (Ok([]), st)
    else
      var (r, st') := ConsensusFetch(st, days[0], hours, o, None);
      match r
      case Err(e) => (Err(e), st')
      case Ok(text) => Prepend([DayMapping(days[0], Parse(text))], CollectDays(st', days[1..], hours, o))
  }

  /** `build_panel(start, end, hours)`. */
  function PanelFor(st: CacheState, start: int, end: int, hours: seq<int>, o: Oracles)
    : (Result<PanelData, DayError>, CacheState)
  {
    var (r, st') := CollectDays(st, Days(start, end), hours, o);
    match r
    case Err(e) => (Err(e), st')
    case Ok(pd) => (Ok(PanelData(pd, CommonKeys(pd))), st')
  }

  /** The days collected so far, put in front of what the remaining days give. */
  function Prepend(done: seq<DayMapping>, rest: (Result<seq<DayMapping>, DayError>, CacheState))
    : (Result<seq<DayMapping>, DayError>, CacheState)
  {
    match rest.0
    case Err(e) => rest
    case Ok(more) => (Ok(done + more), rest.1)
  }

  lemma {:induction false} PrependTwice(done: seq<DayMapping>, entry: DayMapping, rest: (Result<seq<DayMapping>, DayError>, CacheState))
    ensures Prepend(done, Prepend([entry], rest)) == Prepend(done + [entry], rest)
  {
    if rest.0.Ok? {
      assert done + ([entry] + rest.0.value) == done + [entry] + rest.0.value;
    }
  }

  /** The first loop of `build_panel`: one fetched and parsed consensus per day of the range. */
  method FetchDays(cache: CacheDir, days: seq<int>, hours: seq<int>, o: Oracles) returns (r: Result<seq<DayMapping>, DayError>)
    modifies cache
    ensures (r, cache.State()) == CollectDays(old(cache.State()), days, hours, o)
  {
    var perDay: seq<DayMapping> := [];
    CollectFrom(old(cache.State()), days, hours, o);
    var i := 0;
    while i < |days|
      invariant 0 <= i <= |days|
      invariant Prepend(perDay, CollectDays(cache.State(), days[i..], hours, o)) == CollectDays(old(cache.State()), days, hours, o)
    {
      ghost var before := cache.State();
      var fetched := cache.FetchConsensus(days[i], hours, o);
      DayStep(before, days, i, hours, o, perDay);
      if fetched.Err? {
        return Err(fetched.error);
      }
      var mapping := ParseConsensus(fetched.value);
      perDay := perDay + [DayMapping(days[i], mapping)];
      i := i + 1;
    }
    CollectDone(perDay, cache.State(), days, hours, o);
    r := Ok(perDay);
  }

  lemma {:induction false} CollectFrom(st: CacheState, days: seq<int>, hours: seq<int>, o: Oracles)
    ensures Prepend([], CollectDays(st, days[0..], hours, o)) == CollectDays(st, days, hours, o)
  {
    assert days[0..] == days;
    var all := CollectDays(st, days, hours, o);
    if all.0.Ok? {
      assert [] + all.0.value == all.0.value;
    }
  }

  lemma {:induction false} CollectDone(perDay: seq<DayMapping>, st: CacheState, days: seq<int>, hours: seq<int>, o: Oracles)
    ensures Prepend(perDay, CollectDays(st, days[|days|..], hours, o)) == (Ok(perDay), st)
  {
    assert days[|days|..] == [] && perDay + [] == perDay;
  }

  /** One day of the loop: a failed day ends the collection with its error; a fetched day joins those done. */
  lemma {:induction false} DayStep(st: CacheState, days: seq<int>, i: int, hours: seq<int>, o: Oracles, perDay: seq<DayMapping>)
    requires 0 <= i < |days|
    ensures var (r, st') := ConsensusFetch(st, days[i], hours, o, None);
      && (r.Err? ==> Prepend(perDay, CollectDays(st, days[i..], hours, o)) == (Err(r.error), st'))
      && (r.Ok? ==> Prepend(perDay, CollectDays(st, days[i..], hours, o)) ==
                      Prepend(perDay + [DayMapping(days[i], Parse(r.value))], CollectDays(st', days[i + 1..], hours, o)))
  {
    assert days[i..][0] == days[i] && days[i..][1..] == days[i + 1..];
    var (r, st') := ConsensusFetch(st, days[i], hours, o, None);
    if r.Ok? {
      PrependTwice(perDay, DayMapping(days[i], Parse(r.value)), CollectDays(st', days[i + 1..], hours, o));
    }
  }

  /** The second half of `build_panel`: `common = set(first keys)`, then `common &= set(m.keys())` for each later day. */
  method Intersect(perDay: seq<DayMapping>) returns (common: set<string>)
    requires |perDay| > 0
    ensures common == CommonKeys(perDay)
  {
    common := perDay[0].mapping.Keys;
    var k := 1;
    while k < |perDay|
      invariant 1 <= k <= |perDay|
      invariant common == CommonKeys(perDay[..k])
    {
      assert perDay[..k + 1][..k] == perDay[..k];
      common := common * perDay[k].mapping.Keys;
      k := k + 1;
    }
    assert perDay[..k] == perDay;
  }

  /** `build_panel`. */
  method BuildPanel(cache: CacheDir, start: int, end: int, hours: seq<int>, o: Oracles) returns (r: Result<PanelData, DayError>)
    modifies cache
    ensures (r, cache.State()) == PanelFor(old(cache.State()), start, end, hours, o)
  {
    var days := DateRange(start, end);
    var collected := FetchDays(cache, days, hours, o);
    if collected.Err? {
      return Err(collected.error);
    }
    var perDay := collected.value;
    if |perDay| == 0 {
      return Ok(PanelData([], {}));
    }
    var common := Intersect(perDay);
    r := Ok(PanelData(perDay, common));
  }

  // ---------------------------------------------------------------------------
  // write_csv

  /** A data row: the day, the fingerprint and the bandwidth; `RowFields` gives its text `[day.isoformat(), fp, bw, stamp]`. */
  datatype CsvRow = CsvRow(day: int, fingerprint: string, bandwidth: int)

  const Header: seq<string> := ["date", "fingerprint", "relay_bandwidth", "timestamp"]

  /** `datetime.combine(day, time(0, 0, 0)).isoformat()`. */
  function Midnight(day: int): string {
    IsoDate(day) + "T00:00:00"
  }

  /** The rows of one day: the common fingerprints in the set's iteration order, skipping any missing from the day's mapping. */
  function DayRows(d: DayMapping, order: seq<string>): (rows: seq<CsvRow>)
    ensures |rows| <= |order|
    decreases |order|
  {
    if |order| == 0 then []
    else
      var here := if order[0] in d.mapping
        then [CsvRow(d.day, order[0], d.mapping[order[0]])]
        else [];
      here + DayRows(d, order[1..])
  }

  /** All data rows, day by day. */
  function CsvRows(pd: seq<DayMapping>, order: seq<string>): seq<CsvRow>
    decreases |pd|
  {
    if |pd| == 0 then [] else DayRows(pd[0], order) + CsvRows(pd[1..], order)
  }

  /** `order` lists the elements of `s`, each once: one iteration over a Python set. */
  predicate IsEnumeration(order: seq<string>, s: set<string>) {
    (forall i, j :: 0 <= i < j < |order| ==> order[i] != order[j])
    && (forall x :: x in s ==> x in order) && (forall i :: 0 <= i < |order| ==> order[i] in s)
  }

  /**
    Iteration over a set in some order. CPython visits an unmodified set in the
    same order every time, so `write_csv` uses one order for all days.
   */
  method Enumerate(s: set<string>) returns (order: seq<string>)
    ensures IsEnumeration(order, s)
  {
    order := [];
    var left := s;
    while left != {}
      invariant forall i, j :: 0 <= i < j < |order| ==> order[i] != order[j]
      invariant forall x :: x in s <==> x in order || x in left
      invariant forall x :: x in order ==> x !in left
      decreases |left|
    {
      var x :| x in left;
      order := order + [x];
      left := left - {x};
    }
  }

  /** The inner loop of `write_csv`: one day's rows. */
  method WriteDay(d: DayMapping, order: seq<string>) returns (dayRows: seq<CsvRow>)
    ensures dayRows == DayRows(d, order)
  {
    dayRows := [];
    var j := 0;
    while j < |order|
      invariant 0 <= j <= |order|
      invariant dayRows + DayRows(d, order[j..]) == DayRows(d, order)
    {
      var fp := order[j];
      assert order[j..][1..] == order[j + 1..];
      if fp in d.mapping {
        dayRows := dayRows + [CsvRow(d.day, fp, d.mapping[fp])];
      }
      j := j + 1;
    }
  }

  /** `write_csv`: the header, then the data rows in the order the loops produce them. */
  method WriteCsv(pd: seq<DayMapping>, common: set<string>) returns (header: seq<string>, rows: seq<CsvRow>)
    ensures header == Header
    ensures exists order :: IsEnumeration(order, common) && rows == CsvRows(pd, order)
  {
    header := Header;
    var order := Enumerate(common);
    rows := [];
    var i := 0;
    assert pd[0..] == pd;
    while i < |pd|
      invariant 0 <= i <= |pd|
      invariant rows + CsvRows(pd[i..], order) == CsvRows(pd, order)
    {
      var dayRows := WriteDay(pd[i], order);
      assert pd[i..][1..] == pd[i + 1..];
      assert rows + (dayRows + CsvRows(pd[i + 1..], order)) == rows + dayRows + CsvRows(pd[i + 1..], order);
      rows := rows + dayRows;
      i := i + 1;
    }
    assert rows + [] == rows;
  }

  /** The text of one CSV line, as `csv.writer` writes it (no field needs quoting). */
  function RowFields(row: CsvRow): seq<string> {
    [IsoDate(row.day), row.fingerprint, Decimal(row.bandwidth), Midnight(row.day)]
  }

  function CsvLine(fields: seq<string>): string
    requires |fields| >= 1
  {
    Join(fields, ',') + "\r\n"
  }

  // ---------------------------------------------------------------------------
  // main

  /** How `main` ends: `sys.exit` with a status (and the CSV written on 0), or an uncaught RuntimeError. */
  datatype PullOutcome =
    | Exited(code: int, header: seq<string>, rows: seq<CsvRow>)
    | Crashed(error: DayError)

  predicate ValidHour(h: int) { 0 <= h <= 23 }

  /**
    `main`: hours are the preferred hour and then the fallbacks. An hour outside
    0..23 ends with status 2 before anything is fetched; an empty date range
    ends with status 1; a day that cannot be fetched raises; otherwise the CSV
    is written and the status is 0.
   */
  method RunPull(cache: CacheDir, start: int, end: int, hour: int, fallbacks: seq<int>, o: Oracles) returns (out: PullOutcome)
    modifies cache
    ensures var hours := [hour] + fallbacks;
      (exists k :: 0 <= k < |hours| && !ValidHour(hours[k])) ==>
        out == Exited(2, [], []) && cache.State() == old(cache.State())
    ensures var hours := [hour] + fallbacks;
      (forall k :: 0 <= k < |hours| ==> ValidHour(hours[k])) ==>
        var (r, st) := PanelFor(old(cache.State()), start, end, hours, o);
        && cache.State() == st
        && (r.Err? ==> out == Crashed(r.error))
        && (r.Ok? && r.value.perDay == [] ==> out == Exited(1, [], []))
        && (r.Ok? && r.value.perDay != [] ==>
              out.Exited? && out.code == 0 && out.header == Header
              && exists order :: IsEnumeration(order, r.value.common) && out.rows == CsvRows(r.value.perDay, order))
  {
    var hours := [hour] + fallbacks;
    var k := 0;
    while k < |hours|
      invariant 0 <= k <= |hours|
      invariant forall j :: 0 <= j < k ==> ValidHour(hours[j])
    {
      if !ValidHour(hours[k]) {
        return Exited(2, [], []);
      }
      k := k + 1;
    }
    var panel := BuildPanel(cache, start, end, hours, o);
    if panel.Err? {
      return Crashed(panel.error);
    }
    if |panel.value.perDay| == 0 {
      return Exited(1, [], []);
    }
    var header, rows := WriteCsv(panel.value.perDay, panel.value.common);
    out := Exited(0, header, rows);
  }

  // ---------------------------------------------------------------------------
  // Properties

  /** A completed collection has one entry per day, in order, each holding that day's parsed consensus. */
  lemma {:induction false} CollectDaysShape(st: CacheState, days: seq<int>, hours: seq<int>, o: Oracles)
    requires CollectDays(st, days, hours, o).0.Ok?
    ensures var pd := CollectDays(st, days, hours, o).0.value;
      |pd| == |days| && forall i :: 0 <= i < |pd| ==> pd[i].day == days[i]
    decreases |days|
  {
    if |days| > 0 {
      var (r, st') := ConsensusFetch(st, days[0], hours, o, None);
      CollectDaysShape(st', days[1..], hours, o);
    }
  }

  /** `per_day` is empty exactly when the range is empty: `main`'s status 1 means `start > end`. */
  lemma {:induction false} PanelEmptyIffNoDays(st: CacheState, start: int, end: int, hours: seq<int>, o: Oracles)
    requires PanelFor(st, start, end, hours, o).0.Ok?
    ensures var p := PanelFor(st, start, end, hours, o).0.value;
      (p.perDay == [] <==> start > end)
      && |p.perDay| == (if start <= end then end - start + 1 else 0)
      && forall i :: 0 <= i < |p.perDay| ==> p.perDay[i].day == start + i
  {
    CollectDaysShape(st, Days(start, end), hours, o);
  }

  /** Every row of a day carries that day's date, midnight stamp and bandwidth, for a fingerprint of the order. */
  lemma {:induction false} DayRowsSound(d: DayMapping, order: seq<string>, k: int)
    requires 0 <= k < |DayRows(d, order)|
    ensures var row := DayRows(d, order)[k];
      && row.fingerprint in order && row.fingerprint in d.mapping
      && row.bandwidth == d.mapping[row.fingerprint]
      && row.day == d.day
    decreases |order|
  {
    var here := if order[0] in d.mapping
      then [CsvRow(d.day, order[0], d.mapping[order[0]])] else [];
    assert DayRows(d, order) == here + DayRows(d, order[1..]);
    if k >= |here| {
      DayRowsSound(d, order[1..], k - |here|);
    }
  }

  /** When every fingerprint of the order is in the day's mapping, the day has one row per fingerprint, in order. */
  lemma {:induction false} DayRowsComplete(d: DayMapping, order: seq<string>)
    requires forall i :: 0 <= i < |order| ==> order[i] in d.mapping
    ensures |DayRows(d, order)| == |order|
    ensures forall k :: 0 <= k < |order| ==> DayRows(d, order)[k] == CsvRow(d.day, order[k], d.mapping[order[k]])
    decreases |order|
  {
    if |order| > 0 {
      DayRowsComplete(d, order[1..]);
      var rows := DayRows(d, order);
      assert rows == [CsvRow(d.day, order[0], d.mapping[order[0]])] + DayRows(d, order[1..]);
      forall k | 0 <= k < |order| ensures rows[k] == CsvRow(d.day, order[k], d.mapping[order[k]]) {
        if k > 0 { assert order[1..][k - 1] == order[k]; }
      }
    }
  }

  /** A sequence without repeats has as many elements as its set. */
  lemma {:induction false} DistinctCard(order: seq<string>, s: set<string>)
    requires IsEnumeration(order, s)
    ensures |s| == |order|
    decreases |order|
  {
    if |order| > 0 {
      var x := order[|order| - 1];
      var front := order[..|order| - 1];
      assert IsEnumeration(front, s - {x}) by {
        forall y ensures y in s - {x} <==> y in front {
          if y in order && y != x {
            var i :| 0 <= i < |order| && order[i] == y;
            assert i < |order| - 1;
            assert front[i] == y;
          }
        }
      }
      DistinctCard(front, s - {x});
    }
  }

  /** The offset of day `i`'s block when every day has `n` rows: `i * n`, counted up block by block. */
  function Block(i: nat, n: nat): nat {
    if i == 0 then 0 else n + Block(i - 1, n)
  }

  lemma {:induction false} BlockIsProduct(i: nat, n: nat)
    ensures Block(i, n) == i * n
  {
    if i > 0 {
      BlockIsProduct(i - 1, n);
      assert i * n == n + (i - 1) * n;
    }
  }

  /** When every fingerprint of the order is in every day's mapping, each day contributes one row per fingerprint. */
  lemma {:induction false} CsvRowsCount(pd: seq<DayMapping>, order: seq<string>)
    requires forall i, k :: 0 <= i < |pd| && 0 <= k < |order| ==> order[k] in pd[i].mapping
    ensures |CsvRows(pd, order)| == Block(|pd|, |order|)
    decreases |pd|
  {
    if |pd| > 0 {
      DayRowsComplete(pd[0], order);
      CsvRowsCount(pd[1..], order);
    }
  }

  /** The rows after the first day's block are the rows of the later days. */
  lemma {:induction false} CsvRowsShift(pd: seq<DayMapping>, order: seq<string>, j: nat)
    requires |pd| > 0 && j < |CsvRows(pd[1..], order)|
    ensures |DayRows(pd[0], order)| + j < |CsvRows(pd, order)|
    ensures CsvRows(pd, order)[|DayRows(pd[0], order)| + j] == CsvRows(pd[1..], order)[j]
  {
    assert CsvRows(pd, order) == DayRows(pd[0], order) + CsvRows(pd[1..], order);
  }

  lemma {:induction false} CsvRowFirstDay(pd: seq<DayMapping>, order: seq<string>, k: nat)
    requires |pd| > 0 && k < |order|
    requires forall k :: 0 <= k < |order| ==> order[k] in pd[0].mapping
    ensures k < |CsvRows(pd, order)|
    ensures CsvRows(pd, order)[k] == CsvRow(pd[0].day, order[k], pd[0].mapping[order[k]])
  {
    DayRowsComplete(pd[0], order);
    assert CsvRows(pd, order) == DayRows(pd[0], order) + CsvRows(pd[1..], order);
  }

  /** Row `Block(i, |order|) + k` is day `i` with the `k`-th fingerprint of the order and that day's bandwidth. */
  lemma {:induction false} CsvRowAt(pd: seq<DayMapping>, order: seq<string>, i: nat, k: nat)
    requires forall i, k :: 0 <= i < |pd| && 0 <= k < |order| ==> order[k] in pd[i].mapping
    requires i < |pd| && k < |order|
    ensures Block(i, |order|) + k < |CsvRows(pd, order)|
    ensures CsvRows(pd, order)[Block(i, |order|) + k] == CsvRow(pd[i].day, order[k], pd[i].mapping[order[k]])
    decreases i
  {
    var n := |order|;
    if i == 0 {
      CsvRowFirstDay(pd, order, k);
    } else {
      DayRowsComplete(pd[0], order);
      var rest := pd[1..];
      LaterDaysCovered(pd, order);
      CsvRowAt(rest, order, i - 1, k);
      assert rest[i - 1] == pd[i];
      CsvRowsShift(pd, order, Block(i - 1, n) + k);
      assert Block(i, n) == n + Block(i - 1, n);
    }
  }

  lemma {:induction false} LaterDaysCovered(pd: seq<DayMapping>, order: seq<string>)
    requires |pd| > 0
    requires forall i, k :: 0 <= i < |pd| && 0 <= k < |order| ==> order[k] in pd[i].mapping
    ensures forall i, k :: 0 <= i < |pd[1..]| && 0 <= k < |order| ==> order[k] in pd[1..][i].mapping
  {
    forall i, k | 0 <= i < |pd[1..]| && 0 <= k < |order| ensures order[k] in pd[1..][i].mapping {
      assert pd[1..][i] == pd[i + 1];
    }
  }

  /**
    With the order enumerating `common_relays` and every common fingerprint in
    every day's mapping (as `build_panel` guarantees), `write_csv` writes
    exactly days × |common| data rows, and row `i * |common| + k` holds the
    `k`-th fingerprint of the order with day `i`'s bandwidth.
   */
  lemma {:induction false} CsvRowsComplete(pd: seq<DayMapping>, order: seq<string>, common: set<string>, i: nat, k: nat)
    requires IsEnumeration(order, common)
    requires forall i, fp :: 0 <= i < |pd| && fp in common ==> fp in pd[i].mapping
    requires i < |pd| && k < |order|
    ensures |CsvRows(pd, order)| == |pd| * |common|
    ensures i * |common| + k < |CsvRows(pd, order)|
    ensures CsvRows(pd, order)[i * |common| + k] == CsvRow(pd[i].day, order[k], pd[i].mapping[order[k]])
  {
    DistinctCard(order, common);
    CsvRowsCount(pd, order);
    CsvRowAt(pd, order, i, k);
    BlockIsProduct(i, |order|);
    BlockIsProduct(|pd|, |order|);
  }

  /** Every data row written belongs to a day of the panel, a fingerprint of the order, and carries that day's bandwidth. */
  lemma {:induction false} CsvRowsSound(pd: seq<DayMapping>, order: seq<string>, k: int)
    requires 0 <= k < |CsvRows(pd, order)|
    ensures var row := CsvRows(pd, order)[k];
      exists i :: 0 <= i < |pd| && row.day == pd[i].day
        && row.fingerprint in order && row.fingerprint in pd[i].mapping && row.bandwidth == pd[i].mapping[row.fingerprint]
    decreases |pd|
  {
    var head := DayRows(pd[0], order);
    assert CsvRows(pd, order) == head + CsvRows(pd[1..], order);
    if k < |head| {
      DayRowsSound(pd[0], order, k);
    } else {
      CsvRowsSound(pd[1..], order, k - |head|);
      var row := CsvRows(pd, order)[k];
      var i :| 0 <= i < |pd[1..]| && row.day == pd[1..][i].day
        && row.fingerprint in order && row.fingerprint in pd[1..][i].mapping && row.bandwidth == pd[1..][i].mapping[row.fingerprint];
      assert pd[1..][i] == pd[i + 1];
    }
  }

  /** The panel `build_panel` returns meets the condition of `CsvRowsComplete`. */
  lemma {:induction false} PanelCommonEverywhere(st: CacheState, start: int, end: int, hours: seq<int>, o: Oracles)
    requires PanelFor(st, start, end, hours, o).0.Ok?
    ensures var p := PanelFor(st, start, end, hours, o).0.value;
      forall i, fp :: 0 <= i < |p.perDay| && fp in p.common ==> fp in p.perDay[i].mapping
  {
  }

  /** A rendered data line splits on commas back into its four fields. */
  lemma {:induction false} RowReadsBack(row: CsvRow)
    requires forall k, i :: 0 <= k < 4 && 0 <= i < |RowFields(row)[k]| ==> RowFields(row)[k][i] != ','
    ensures var line := CsvLine(RowFields(row)); SplitOn(line[..|line| - 2], ',') == RowFields(row)
  {
    var line := CsvLine(RowFields(row));
    assert line[..|line| - 2] == Join(RowFields(row), ',');
    JoinSplitOn(RowFields(row), ',');
  }

  /** The intersection on a small example: three days sharing relays B and C give six rows. */
  lemma {:induction false} CommonExample(order: seq<string>)
    requires IsEnumeration(order, {"B", "C"})
    ensures var pd := [DayMapping(0, map["A" := 1, "B" := 2, "C" := 3]),
                       DayMapping(1, map["B" := 9, "C" := 3, "D" := 4]),
                       DayMapping(2, map["B" := 5, "C" := 6])];
      CommonKeys(pd) == {"B", "C"} && |CsvRows(pd, order)| == 6
  {
    var pd := [DayMapping(0, map["A" := 1, "B" := 2, "C" := 3]),
               DayMapping(1, map["B" := 9, "C" := 3, "D" := 4]),
               DayMapping(2, map["B" := 5, "C" := 6])];
    assert "A" !in pd[2].mapping && "D" !in pd[0].mapping;
    assert CommonKeys(pd) == {"B", "C"};
    DistinctCard(order, {"B", "C"});
    assert |{"B", "C"}| == 2;
    CsvRowsCount(pd, order);
  }
}
