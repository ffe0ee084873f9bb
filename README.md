# tor-relay-data, modelled in Dafny

This project models the four scripts of tor-relay-data, which build and check
a daily panel of Tor relay bandwidths:

- `pull_relay_data.py` gets one consensus document per day from the CollecTor
  monthly archives. It caches each month's tar, tries a primary hour and then
  fallback hours, and reads `r`/`w` line pairs into a fingerprint → `Bandwidth=`
  mapping. It then intersects the days' relay sets and writes one CSV row per
  day and common relay.
- `validate_data.py` checks such a panel CSV in a fixed order. Each failed
  check ends in `die` with status 2.
- `onionoo_to_csv.py` pages through the Onionoo `weights` document with
  retries. It picks a history window per relay, expands it into timestamped
  samples and keeps, per relay and UTC day, the sample nearest a chosen time.
- `data-check.py` is a health check of that daily table: required columns,
  null/negative/duplicate counts, the offset of each sample from a baseline
  time of day, and the list of problems in its conclusion.

Modules, one file each: `Wrappers`, `PyStr` (the Python `str` operations used:
`split`, `splitlines`, `strip`, `int()`, `str(int)`), `Base64` (RFC 4648
section 4 decoding and the upper-case hex fingerprint), `Calendar` (day
numbers, ISO labels, `daterange`), `Clock` (seconds, `HH:MM`), `Frames`
(`DataFrame.duplicated`), `Consensus`, `Archive`, `Panel` (pull_relay_data.py),
`Validate` (validate_data.py), `Onionoo` (onionoo_to_csv.py), `DataCheck`
(data-check.py) and `Pipeline`. `Pipeline` states what each checker concludes
about the file the other script writes.

Dates are integer day numbers (day 0 = 1970-01-01) and timestamps are integer
seconds since the epoch. The network, the tar reader, the xz/bz2
decompressors, UTF-8 decoding and the Onionoo server are values passed in:
`Archive.Oracles` and `Onionoo.Server`, whose `fails(offset, attempt)` says
which request attempts fail. The month cache is the `Archive.CacheDir` class:
a map from cache path to blob plus the list of URLs requested so far. The
loops of the scripts are methods proved equal to functions (`ParseConsensus`
to `Parse`, `FetchConsensus` to `ConsensusFetch`, `BuildPanel` to `PanelFor`,
`FetchAll` to `Fetched`, ...). The properties are lemmas about those functions.

Behaviour of the code worth noting, which the model keeps:

- A line that is neither `r` nor `w` does not break an `r`/`w` pair. Only a
  `w` line (or a later `r` line) ends a pending relay.
- `main` of pull_relay_data.py returns 1 only when the date range is empty. A
  day that cannot be fetched raises an uncaught `RuntimeError`
  (`Panel.PullOutcome.Crashed`).
- Neither the 20-byte identity length nor a non-negative `Bandwidth=` is
  checked. A negative bandwidth is written out and then rejected by
  validate_data.py (`Pipeline.NegativeBandwidthRejected`).
- When no relay is common to all days, the header-only CSV makes
  validate_data.py raise in `min()` of no dates. It does not report a failed
  check (`Pipeline.EmptyCommonCrashesValidator`).
- `re.match` with `$` also accepts a member name that ends in one newline.
  Such a name never ends in `.xz`/`.bz2`, so it is decoded without
  decompression (`Archive.NewlineNameNotDecompressed`).

## Model

| member | source | states |
|---|---|---|
| `Base64.FingerprintRoundTrip` | pull_relay_data.py:87-92 | For any identity bytes, `b64_to_hex` of the padded encoding and of the encoding with its `=` stripped both give the upper-case hex of the bytes. Hex-decoding that gives the bytes back. 20 bytes give a 40-character fingerprint. |
| `Base64.DecodeEncode` | pull_relay_data.py:91 | Strict RFC 4648 decoding inverts encoding for every byte string. |
| `Base64.RepadUnpadded` | pull_relay_data.py:90 | The `'=' * (-len % 4)` padding restores exactly the padding that was stripped. |
| `Base64.B64ToHexShape` | pull_relay_data.py:92 | A decoded fingerprint is upper-case hex of even length, and non-empty for a non-empty identity. |
| `Base64.HexRoundTrip` | pull_relay_data.py:92 | `bytes.fromhex` of `raw.hex().upper()` is `raw`. |
| `PyStr.Split` | pull_relay_data.py:109 | `str.split()` gives non-empty tokens that contain no whitespace. |
| `PyStr.SplitJoin` | pull_relay_data.py:109 | Non-empty, whitespace-free tokens joined by single spaces split back into exactly those tokens. |
| `PyStr.SplitEmpty` | pull_relay_data.py:109 | `str.split()` gives no tokens exactly when the string is whitespace only. |
| `PyStr.SplitLines` | pull_relay_data.py:103 | `str.splitlines()` gives lines that contain no line-break character. |
| `PyStr.SplitLinesTerminated` | pull_relay_data.py:103 | Lines without line breaks, each ended by `\n`, come back from `splitlines()` as exactly those lines. |
| `PyStr.DecimalRoundTrip` | pull_relay_data.py:182 | A written integer reads back through `int()` as the same integer. |
| `Consensus.ParseConsensus` | pull_relay_data.py:94-141 | The loop over lines with `current_fp` and `results` returns exactly the left fold `Parse` of the line step. |
| `Consensus.ScanWeightLine` | pull_relay_data.py:123-128 | The scan of the tokens after `w` stops at the first `Bandwidth=` token and yields its value when it parses as an integer, and nothing when there is no such token or it does not parse, which is `WeightValue`. |
| `Consensus.RelayLineSetsPending` | pull_relay_data.py:107-117 | An `r` line never changes the results. With fewer than 3 tokens, or an identity that does not decode, it clears the pending slot. Otherwise it sets the slot to the decoded fingerprint. |
| `Consensus.SecondRelayLineOverwrites` | pull_relay_data.py:107-117 | Two `r` lines in a row act as the second one alone, so the first relay gets no entry. |
| `Consensus.WeightLineRecordsAndClears` | pull_relay_data.py:119-135 | A `w` line with a fingerprint pending records its first `Bandwidth=` integer under that fingerprint, or nothing if the value is not an integer. The slot is cleared in both cases. |
| `Consensus.SecondWeightLineIgnored` | pull_relay_data.py:119-135 | After an `r`, `w` pair a second `w` line changes nothing: each `r` line pairs with at most one `w` line. |
| `Consensus.IgnoredLineChangesNothing` | pull_relay_data.py:104-139 | Empty lines, lines that are neither `r` nor `w`, and `w` lines with nothing pending change neither the results nor the pending slot. |
| `Consensus.InertLinesKeepState` | pull_relay_data.py:137-139 | Any run of lines that are neither `r` nor `w` lines leaves the whole state unchanged. |
| `Consensus.PairRecords` | pull_relay_data.py:107-135 | An `r` line, any non-`r`/`w` lines (such as `s`), then a `w` line record exactly that relay's bandwidth and leave nothing pending. |
| `Consensus.RelayAtEndDropped` | pull_relay_data.py:107-141 | An `r` line followed only by non-`r`/`w` lines up to the end of the document adds no entry. |
| `Consensus.PairedDocument` | pull_relay_data.py:94-141 | A document of N paired `r`/`w` groups yields the in-order updates of their bandwidths, so a repeated fingerprint keeps its last value. |
| `Consensus.RecordedDistinct` | pull_relay_data.py:130 | With distinct fingerprints, the mapping has exactly one key per group, each holding its own bandwidth. |
| `Consensus.ParsedKeysAreFingerprints` | pull_relay_data.py:107-130 | Every key of a parsed day mapping is upper-case hex text. |
| `Archive.FirstMatchFrom` | pull_relay_data.py:57-60 | The chosen member is the first member whose base name matches `NAME_PAT`. No earlier member matches. None means no member matches. |
| `Archive.NameNamesOneDayHour` | pull_relay_data.py:21 | A base name matches the pattern for at most one (`YYYY-MM-DD`, `HH`) pair, so different hours select different files. |
| `Archive.NewlineNameNotDecompressed` | pull_relay_data.py:60-68 | A matched name ending in a newline is decoded as UTF-8 without decompression, because its extension test fails. |
| `Archive.CacheDir.LoadMonth` | pull_relay_data.py:32-51 | A cached month is returned as it is. Otherwise the month URL is requested once, and a successful download is stored under the cache path. |
| `Archive.CacheDir.FetchFromMonthTar` | pull_relay_data.py:31-73 | The member scan returns what `MonthTarFetch` specifies: load the blob, open the tar, decompress and decode the first matching member by its suffix, or fail with the date, hour and URL. |
| `Archive.CacheDir.FetchConsensus` | pull_relay_data.py:75-85 | The loop over hours returns exactly `ConsensusFetch` and leaves the cache in the state it specifies. |
| `Archive.ConsensusFetchGrows` | pull_relay_data.py:40-51 | Fetching never removes or rewrites a cached month and only appends to the request log. |
| `Archive.CachedMonthNoDownload` | pull_relay_data.py:40-43 | For a month already cached, fetching a day makes no request and leaves the cache untouched, whatever the hours. |
| `Archive.DownloadedOnce` | pull_relay_data.py:44-51 | After a successful download, loading the same month again makes no further request and returns the same blob. |
| `Archive.CachedFetchOutcome` | pull_relay_data.py:75-85 | With the month cached, `fetch_consensus` succeeds iff some hour's entry can be read. It returns the text of the first such hour in list order. Otherwise it fails naming the day and the last hour's error. |
| `Archive.LaterHoursIgnored` | pull_relay_data.py:77-80 | Once a prefix of the hours succeeds, hours appended after it change neither the result nor the cache. |
| `Archive.DownloadRetriedPerHour` | pull_relay_data.py:44-85 | With an uncached month that cannot be downloaded, every hour tried requests the archive again (no retry within an hour). The day fails with the download error. |
| `Archive.NoHoursFails` | pull_relay_data.py:76-85 | An empty hour list fails at once with no error kept and nothing fetched. |
| `Calendar.DateRange` | pull_relay_data.py:24-28 | `daterange` (a generator here, a list in validate_data.py) yields `start..end` inclusive, ascending and consecutive, and nothing when `start > end`. |
| `Calendar.Days` | validate_data.py:17-23 | The days from `d0` to `d1` number `d1 - d0 + 1`, and the i-th is `d0 + i`. |
| `Panel.CommonKeys` | pull_relay_data.py:160-167 | A fingerprint is common iff there is at least one day and it is a key of every day's mapping. No days gives the empty set. |
| `Panel.Intersect` | pull_relay_data.py:163-165 | `common = keys of day 0`, then `common &= keys` for each later day, equals `CommonKeys`. |
| `Panel.FetchDays` | pull_relay_data.py:149-157 | The day loop equals `CollectDays`: fetch and parse each day in order, and stop at the first unavailable day. |
| `Panel.BuildPanel` | pull_relay_data.py:143-167 | `build_panel` returns `PanelFor`: the per-day list and its common set, or the first day's error. |
| `Panel.CollectDaysShape` | pull_relay_data.py:149-157 | A completed collection has one entry per day of the range, in order. |
| `Panel.PanelEmptyIffNoDays` | pull_relay_data.py:143-167 | `per_day` is empty iff `start > end`. Otherwise it has `end - start + 1` entries and entry i is day `start + i`. |
| `Panel.PanelCommonEverywhere` | pull_relay_data.py:160-167 | Every common fingerprint is a key of every day's mapping. |
| `Panel.Enumerate` | pull_relay_data.py:179 | Iterating over the common set visits each element exactly once. |
| `Panel.WriteDay` | pull_relay_data.py:178-182 | One day's inner loop writes `DayRows`: the common fingerprints in iteration order, each with that day's bandwidth. |
| `Panel.WriteCsv` | pull_relay_data.py:169-182 | `write_csv` writes the header `date,fingerprint,relay_bandwidth,timestamp` and then the rows of each day in `per_day` order, for one iteration order of the common set. |
| `Panel.CsvRowsComplete` | pull_relay_data.py:174-182 | With every common fingerprint in every day's mapping, there are exactly days × \|common\| data rows. Row `i·\|common\| + k` is day i, the k-th fingerprint and day i's own bandwidth. |
| `Panel.CsvRowsSound` | pull_relay_data.py:175-182 | Every data row belongs to a day of `per_day` and a common fingerprint, and carries that day's bandwidth. |
| `Panel.RowReadsBack` | pull_relay_data.py:173-182 | A written data line without commas in its fields splits back into its four fields. |
| `Panel.CommonExample` | pull_relay_data.py:160-182 | Days `{A:1,B:2,C:3}`, `{B:9,C:3,D:4}`, `{B:5,C:6}` have common set `{B,C}` and give 6 rows. |
| `Panel.RunPull` | pull_relay_data.py:194-218 | `main`: an hour outside 0..23 returns 2 before any fetch, with the cache untouched. An unavailable day raises. An empty range returns 1. Otherwise the status is 0 and the CSV is `write_csv`'s output. |
| `Frames.DuplicateCountZero` | validate_data.py:64-66 | `duplicated(...).sum()` is 0 iff no key repeats. |
| `Validate.MissingOf` | validate_data.py:38-39 | A column is listed as missing iff it is required and absent. The list is empty iff all four are present. |
| `Validate.NonNumericCount` | validate_data.py:54-56 | The non-numeric count is 0 iff every bandwidth cell is a number. |
| `Validate.NegativeCount` | validate_data.py:57-58 | The negative count is 0 iff no numeric bandwidth is below 0. |
| `Validate.MinDay` | validate_data.py:69-70 | `min(days_present)` is a present day no greater than any present day. |
| `Validate.MaxDay` | validate_data.py:69-70 | `max(days_present)` is a present day no smaller than any present day. |
| `Validate.MissingDays` | validate_data.py:73 | A day is listed iff it is expected and absent. |
| `Validate.MissingColumnDies` | validate_data.py:8-41 | A missing required column ends in `die` naming the missing columns, with status 2. |
| `Validate.BadBandwidthDies` | validate_data.py:54-58 | A non-numeric or negative `relay_bandwidth` cell ends in `die` with a positive count. |
| `Validate.DuplicateDies` | validate_data.py:63-66 | A repeated (date, fingerprint) pair ends in `die` with a positive count of repeats. |
| `Validate.GapDies` | validate_data.py:68-74 | A day between the first and last date that no row has ends in `die`, listing that day as missing. |
| `Validate.UnequalDayDies` | validate_data.py:76-86 | A day whose fingerprint set is not the intersection of all days' sets ends in `die`. |
| `Validate.FinalCheckImplied` | validate_data.py:96-101 | With no duplicates, no gaps and equal per-day sets, rows = days × \|common\|, so the final check never fails. |
| `Validate.GridRowCount` | validate_data.py:77-101 | Distinct keys forming a full grid of consecutive days × one relay set number days × \|set\|. |
| `Validate.CheckPassesIffPanel` | validate_data.py:25-101 | The script passes a table iff the table is a panel: all four columns, at least one row, no null or bad cell, no negative bandwidth, no repeated key, and the keys a full grid of consecutive days × one relay set. |
| `Validate.PassedSummary` | validate_data.py:96-111 | A passed table's summary reports the days of its date range, the size of the common set and its row count. |
| `Validate.NotesNeverFail` | validate_data.py:88-94 | Zero and very large bandwidths only change the two reported note counts, never the verdict. |
| `Pipeline.WrittenPanelPasses` | pull_relay_data.py:169-182 | What `write_csv` writes for consecutive days and a non-empty common set with non-negative bandwidths passes every check of validate_data.py. The summary reports `len(per_day)` days, \|common\| relays and days × \|common\| rows. |
| `Pipeline.PulledPanelPasses` | pull_relay_data.py:143-182 | End to end: the panel `build_panel` returns for `start <= end`, written in any set order, passes validate_data.py with `end - start + 1` days, provided a relay is common, no bandwidth is negative and no fingerprint is empty. |
| `Pipeline.NegativeBandwidthRejected` | validate_data.py:57-58 | A negative bandwidth of a common relay, which pull_relay_data.py does not reject, makes validate_data.py stop at the negative-value check. |
| `Pipeline.EmptyCommonCrashesValidator` | validate_data.py:69-70 | With no common relay the CSV has no data rows, and validate_data.py raises in `min()` instead of failing a check. |
| `Pipeline.PanelFailsDataCheck` | data-check.py:154-159 | The panel CSV has no `advertised_bw` column, so data-check.py exits with status 2 on it. |
| `Pipeline.DailyTableFailsValidator` | validate_data.py:38-41 | The daily Onionoo table lacks `relay_bandwidth`, so validate_data.py dies naming exactly that column. |
| `Pipeline.DailyTableClean` | data-check.py:154-183 | The table `nearest_daily_sample` writes has the required columns, no null fingerprint or value, a numeric column and no repeated (fingerprint, date) key. |
| `Pipeline.DailyTableProblems` | data-check.py:203-207 | Hence the only problem the conclusion can list for that table is a negative `advertised_bw`. |
| `Pipeline.DailyOffsetsWithinHalfDay` | data-check.py:99-110 | Every row of that table has an offset from any baseline, and the offset is at most 12 hours. |
| `Pipeline.ExportedTableClean` | onionoo_to_csv.py:97-178 | End to end: when every page request succeeds in time, the exported table has no null and no repeated key for data-check.py. |
| `Onionoo.NormalizeWindow` | onionoo_to_csv.py:130-140 | Every normalised window is one of the five Onionoo keys, and None maps to `1_year`. |
| `Onionoo.NormalizeWindowInverse` | onionoo_to_csv.py:130-140 | A name maps to key k iff k is one of the five keys and the name is k without its underscore. Any other name maps to None. |
| `Onionoo.FirstPresent` | onionoo_to_csv.py:74-77 | Returns the first key of the list present in the dict. None means none is present. |
| `Onionoo.PreferredWindowWins` | onionoo_to_csv.py:72-73 | A present, non-empty preferred window is returned whatever else is present. |
| `Onionoo.FallbackOrder` | onionoo_to_csv.py:74-76 | Otherwise the first present key in the order 1_year, 6_months, 3_months, 1_month, 1_week is returned. |
| `Onionoo.NoHistoryChosen` | onionoo_to_csv.py:68-77 | Missing or empty weights, or weights with neither the preferred nor any known window, give None. |
| `Onionoo.UnpackHistory` | onionoo_to_csv.py:80-94 | Unpacking fails iff `first` is missing or unreadable, `interval` is null or unreadable, or `first` is null and there are values to stamp. Otherwise it yields one sample per listed value, and none when `values` is not a list. |
| `Onionoo.UnpackedTimeline` | onionoo_to_csv.py:82-92 | Sample 0 is at `first`. Consecutive samples are `interval` apart (86400 s when absent). Each value, null included, stays in its place. |
| `Onionoo.NonListExpandsToNothing` | onionoo_to_csv.py:85-88 | A `values` entry that is not a list gives no samples. |
| `Onionoo.Present` | onionoo_to_csv.py:112-115 | `dropna` keeps exactly the non-null samples, tagged with the relay's fingerprint. |
| `Onionoo.SkippedRelays` | onionoo_to_csv.py:105-114 | A relay with no fingerprint, no chosen history, an empty history or only null values adds nothing. |
| `Onionoo.KeptRelay` | onionoo_to_csv.py:105-116 | A kept relay adds exactly its non-null samples, under its own non-empty fingerprint. |
| `Onionoo.FirstSuccess` | onionoo_to_csv.py:49-65 | Finds the first attempt from the given one up to 4 that succeeds. All earlier attempts failed, and None means all failed. |
| `Onionoo.GetJson` | onionoo_to_csv.py:47-65 | Makes 1 to 4 attempts, every attempt before the last one fails, and returns the first success. After the 4th failure it raises. |
| `Onionoo.ScanPage` | onionoo_to_csv.py:105-116 | The loop over one page's relays returns `PageRows`: the rows of the relays in order, or the first unpack error. |
| `Onionoo.FetchAll` | onionoo_to_csv.py:97-119 | The paging loop returns `Fetched`. It stops at an empty page or a page shorter than 5000, and otherwise advances the offset by 5000. |
| `Onionoo.PaginationCoversAllRelays` | onionoo_to_csv.py:97-119 | When every request succeeds, the fetched rows are those of every relay in server order, whatever the relay count. |
| `Onionoo.FailedPageFailsFetch` | onionoo_to_csv.py:101 | A page whose 4 attempts all fail makes the whole fetch fail. |
| `Onionoo.FetchedNamed` | onionoo_to_csv.py:106-108 | Every fetched row carries a non-empty fingerprint. |
| `Onionoo.Group` | onionoo_to_csv.py:172 | A group holds exactly the observations with its (fingerprint, UTC day) key. |
| `Onionoo.Closest` | onionoo_to_csv.py:159-160 | `idxmin` returns a position of minimal distance, and every earlier position is strictly farther. |
| `Onionoo.NearestDailySample` | onionoo_to_csv.py:143-178 | The picked rows are keyed by exactly the distinct (fingerprint, day) pairs of the input. |
| `Onionoo.NearestIsClosest` | onionoo_to_csv.py:153-161 | Each pick is an observation of its own group, and no observation of the group is closer to that day at HH:MM UTC. |
| `Onionoo.TieGoesToEarlier` | onionoo_to_csv.py:160 | On a group in timestamp order, a tie in distance goes to the earlier sample. |
| `Onionoo.OneRowPerPair` | onionoo_to_csv.py:171-178 | A daily row exists for (fp, day) iff some input observation has that fingerprint and that UTC day. |
| `Onionoo.Export` | onionoo_to_csv.py:199-214 | `main`: a fetch error propagates. An empty fetch, and only that, exits 2 before the sample time is read. A bad `HH:MM` after a non-empty fetch exits 2. A non-empty fetch with a good `HH:MM` writes the nearest daily samples for that time. |
| `Clock.ParseHhmm` | data-check.py:46-51 | An accepted `HH:MM` gives 0 ≤ hh < 24 and 0 ≤ mm < 60. |
| `Clock.ParseHhmmFields` | data-check.py:46-51 | Two fields without `:` joined by `:` give the two numbers `int()` reads from them when both are in range, and raise otherwise. |
| `Clock.ParseHhmmShape` | data-check.py:46-51 | Whatever is accepted is two fields without `:` joined by `:`, which `int()` reads as the hour and the minute. |
| `Clock.ParseHhmmFieldCount` | data-check.py:47 | One field, or three or more, joined by `:` raise. |
| `Clock.UnpaddedFields` | onionoo_to_csv.py:207-212 | Single-digit fields need no zero padding: `7:5` reads as 07:05. |
| `Clock.SecondsExample` | onionoo_to_csv.py:207-212 | `07:05:00` is refused. |
| `Clock.SecondsSinceMidnight` | data-check.py:61-62 | For valid clock fields, h·3600 + m·60 + s lies in [0, 86400). |
| `Clock.SecondsOfClock` | data-check.py:61-62 | The clock fields of a timestamp add back up to its offset into the UTC day. |
| `Clock.ClockOfSeconds` | data-check.py:61-62 | Valid clock fields are recovered from their seconds since midnight. |
| `Clock.FormatParseRoundTrip` | data-check.py:54-58 | `parse_hhmm` reads back what `strftime("%H:%M")` prints, so the auto baseline never raises. |
| `DataCheck.LoadCsv` | data-check.py:31-40 | Without `date` but with `timestamp`, a `date` column is added holding each row's UTC day. Otherwise the table is unchanged. |
| `DataCheck.NullFingerprints` | data-check.py:173 | The count is 0 iff every fingerprint is present. |
| `DataCheck.NullBandwidths` | data-check.py:174 | The count is 0 iff every `advertised_bw` cell is present. |
| `DataCheck.NegativeBandwidths` | data-check.py:175 | The count is 0 iff no numeric `advertised_bw` is below 0. |
| `DataCheck.Conclude` | data-check.py:203-212 | `problems` is non-empty iff there are null fingerprints, null values, negative values in a numeric column, or duplicate keys. It names exactly those problems, each once, in that order. |
| `DataCheck.Smallest` | data-check.py:110 | The minimum of the three distances is one of them and no greater than any. |
| `DataCheck.ModeUpTo` | data-check.py:57 | The mode is a most frequent minute, and the smallest one on a tie. |
| `DataCheck.ChooseBaseline` | data-check.py:76-90 | A baseline that is used has 0 ≤ h < 24 and 0 ≤ m < 60. |
| `DataCheck.TimeOffsets` | data-check.py:65-110 | A report has one offset per row and `base_seconds` in [0, 86400). |
| `DataCheck.OffsetAtMostSameDay` | data-check.py:101-110 | The offset is the distance to one of the three anchors and never exceeds the same-day distance. |
| `DataCheck.OffsetIsClockDistance` | data-check.py:98-110 | For a sample filed under its own UTC day, the offset is the 24-hour clock distance to the baseline, at most 12 hours. |
| `DataCheck.MidnightBaseline` | data-check.py:76-99 | The `midnight` baseline always reports, against 0 s, when some timestamp is readable. |
| `DataCheck.UnusableBaselineSkips` | data-check.py:79-90 | An unknown baseline, or `time` without `--baseline-time`, skips the report and returns normally. |
| `DataCheck.BadBaselineTimeRaises` | data-check.py:79-83 | A given baseline time that `parse_hhmm` rejects raises. |
| `DataCheck.AutoBaselineIsMode` | data-check.py:54-58 | The `auto` baseline reports against 60 × the most common minute of the day, the smallest one on a tie. |
| `DataCheck.HealthCheck` | data-check.py:137-212 | `main`: a missing file or column exits as `Prepare` says. A raising baseline ends the run before the conclusion. Otherwise the run concludes with the time report and exactly the listed problems. |
| `DataCheck.ExitsWithTwo` | data-check.py:146-159 | Status 2 happens iff the file is absent or, after loading, one of `date`/`fingerprint`/`advertised_bw` is missing. |
| `DataCheck.DateFromTimestamp` | data-check.py:36-39 | A table with `timestamp` but no `date` column meets the date requirement, and each row is dated by its timestamp's UTC day. |

## Left out

- I/O is modelled as values passed in. This covers the HTTPS requests, the tar
  reader, `lzma`/`bz2` decompression, `decode("utf-8", errors="replace")`, the
  Onionoo JSON documents and reading CSV files.
- CSV output is a sequence of row records. `Panel.RowFields` and
  `Panel.CsvLine` give the text of a row, but files, `os.makedirs` and the
  `csv` module are not modelled.
- Python's non-validating `b64decode` drops characters outside the base64
  alphabet. The model decodes strictly by RFC 4648, and an identity that does
  not decode clears the pending relay.
- `re` is replaced by the `Archive.NameMatches` predicate, which enumerates
  the names `NAME_PAT` accepts.
- Calendar and timezone libraries are replaced by integer day numbers and
  seconds. `Calendar.CivilFromDays` is used only to print ISO labels and month
  keys, and nothing is proved about it.
- `time.sleep` and the `BACKOFF ** attempt` back-off in `get_json` are left
  out. Only the attempt count is kept.
- The request timeouts and the `User-Agent` headers have no effect on the
  modelled behaviour.
- The multiplication by `factor` in `unpack_history` is a float operation and
  is left out: values are kept as given.
- pandas statistics and reporting are left out. This covers the median, 95th
  percentile and maximum of the offsets, the `pd.cut` buckets, the zero-reading
  section, the `top_hhmm` list, `nunique` and the printed date range of
  data-check.py, and the printed summary lines of the other scripts.
- pandas type inference is not modelled. Rows are given with their cells as
  the scripts' conversions leave them (`Validate.VRow`, `DataCheck.DRow`).
- sha256 hashing, logging, timing, argparse and the `strptime` of
  `--start`/`--end` are left out.
- Concurrent runs racing on the cache directory are out of scope.
- Onionoo.NearestDailySample: the final `sort_values(["fingerprint",
  "timestamp"])` of `fetch_all` is not modelled, so ties are broken by the
  first sample in fetched order. That is the sorted order when each group's
  samples are in ascending timestamp order (`Onionoo.TieGoesToEarlier`).
- PyStr.ParseInt: accepts ASCII digits only, while Python's `int()` also
  accepts other Unicode decimal digits.
- Archive.CachedFetchOutcome: the first-success and last-error statement is
  proved for a month already cached. Without the cache, `LaterHoursIgnored`,
  `DownloadRetriedPerHour` and `ConsensusFetchGrows` cover the general case.
- Onionoo.UnpackHistory: a `first` that `pd.to_datetime` reads as NaT (an
  empty string, say) counts as unreadable, so the fetch fails. pandas instead
  stamps every sample NaT and keeps the non-null ones; NaT timestamps are not
  modelled.
