/**
  Getting one day's consensus text from the CollecTor monthly archives, as in
  `fetch_from_month_tar` and `fetch_consensus`. The `.cache/tor-consensuses`
  directory is the state: a month's tar is downloaded only when it is not
  there, and saved after a successful download. The network, the tar reader,
  the xz/bz2 decompressors and UTF-8 decoding are opaque functions passed in.
 */
module Archive {
  import opened Wrappers
  import opened PyStr
  import opened Base64
  import opened Calendar

  type Bytes = seq<Byte>

  /** A tar member: its name, and its contents when `extractfile` returns a file. */
  datatype TarMember = TarMember(name: string, content: Option<Bytes>)

  /** The outside world. Each function returns None where the Python call raises. */
  datatype Oracles = Oracles(
    download: string -> Option<Bytes>,
    openTar: Bytes -> Option<seq<TarMember>>,
    unxz: Bytes -> Option<Bytes>,
    unbz2: Bytes -> Option<Bytes>,
    utf8: Bytes -> string)

  /** The exceptions `fetch_from_month_tar` can raise. */
  datatype FetchError =
    | DownloadFailed(url: string)
    | CorruptArchive(url: string)
    | NotExtractable(name: string)
    | DecompressFailed(name: string)
    | EntryNotFound(date: string, hh: string, url: string)

  /** The RuntimeError of `fetch_consensus`: the day, and the error of the last hour tried. */
  datatype DayError = Unavailable(date: string, last: Option<FetchError>)

  const ArchiveBase := "https://collector.torproject.org/archive/relay-descriptors/consensuses"
  const CacheDirPath := ".cache/tor-consensuses"

  function MonthUrl(month: string): string {
    ArchiveBase + "/consensuses-" + month + ".tar.xz"
  }

  function CachePath(month: string): string {
    CacheDirPath + "/consensuses-" + month + ".tar.xz"
  }

  // ---------------------------------------------------------------------------
  // Which member of the tar is the consensus

  /** `name.split("/")[-1]`. */
  function BaseName(name: string): (base: string)
    ensures forall i :: 0 <= i < |base| ==> base[i] != '/'
  {
    var pieces := SplitOn(name, '/');
    pieces[|pieces| - 1]
  }

  const Prefixes: seq<string> := ["", "consensuses-"]
  const Seconds: seq<string> := ["", "-00"]
  const Suffixes: seq<string> := ["", ".xz", ".bz2"]

  /** One of the names `NAME_PAT` accepts for a date and hour. */
  function Candidate(p: string, date: string, hh: string, s: string, x: string): string {
    p + date + "-" + hh + "-00-00" + s + "-consensus" + x
  }

  /**
    `re.match` of `NAME_PAT` against a base name: the match is anchored at the
    start, and `$` matches at the end or just before a final newline.
   */
  predicate NameMatches(base: string, date: string, hh: string) {
    exists p, s, x :: p in Prefixes && s in Seconds && x in Suffixes &&
      (base == Candidate(p, date, hh, s, x) || base == Candidate(p, date, hh, s, x) + "\n")
  }

  predicate MemberMatches(m: TarMember, date: string, hh: string) {
    NameMatches(BaseName(m.name), date, hh)
  }

  /** The index of the first member, from `i` on, whose base name matches. */
  function FirstMatchFrom(members: seq<TarMember>, i: nat, date: string, hh: string): (r: Option<nat>)
    requires i <= |members|
    ensures r.Some? ==> i <= r.value < |members| && MemberMatches(members[r.value], date, hh)
    ensures r.Some? ==> forall j :: i <= j < r.value ==> !MemberMatches(members[j], date, hh)
    ensures r.None? ==> forall j :: i <= j < |members| ==> !MemberMatches(members[j], date, hh)
    decreases |members| - i
  {
    if i == |members| then None
    else if MemberMatches(members[i], date, hh) then Some(i)
    else FirstMatchFrom(members, i + 1, date, hh)
  }

  /** `extractfile`, then decompression chosen by the base name's extension, then UTF-8 with replacement. */
  function Extract(m: TarMember, o: Oracles): Result<string, FetchError> {
    var base := BaseName(m.name);
    match m.content
    case None => Err(NotExtractable(m.name))
    case Some(data) =>
      if EndsWith(base, ".xz") then
        match o.unxz(data)
        case None => Err(DecompressFailed(m.name))
        case Some(raw) => Ok(o.utf8(raw))
      else if EndsWith(base, ".bz2") then
        match o.unbz2(data)
        case None => Err(DecompressFailed(m.name))
        case Some(raw) => Ok(o.utf8(raw))
      else Ok(o.utf8(data))
  }

  /** The part of `fetch_from_month_tar` after the blob is in hand. */
  function TarFetch(blob: Bytes, day: int, hour: int, o: Oracles): Result<string, FetchError> {
    var url := MonthUrl(MonthKey(day));
    var date := IsoDate(day);
    var hh := TwoDigits(hour);
    match o.openTar(blob)
    case None => Err(CorruptArchive(url))
    case Some(members) =>
      match FirstMatchFrom(members, 0, date, hh)
      case None => Err(EntryNotFound(date, hh, url))
      case Some(k) => Extract(members[k], o)
  }

  // ---------------------------------------------------------------------------
  // The cache directory and the fallback over hours

  /** The cache directory's files, and the URLs requested so far, in order. */
  datatype CacheState = CacheState(files: map<string, Bytes>, requests: seq<string>)

  /** The cache-or-download step of `fetch_from_month_tar`. */
  function LoadBlob(st: CacheState, month: string, o: Oracles): (Result<Bytes, FetchError>, CacheState) {
    var path := CachePath(month);
    if path in st.files then (Ok(st.files[path]), st)
    else
      var url := MonthUrl(month);
      var asked := st.(requests := st.requests + [url]);
      match o.download(url)
      case None => (Err(DownloadFailed(url)), asked)
      case Some(blob) => (Ok(blob), asked.(files := asked.files[path := blob]))
  }

  /** `fetch_from_month_tar(day, hour)`: its result and the cache afterwards. */
  function MonthTarFetch(st: CacheState, day: int, hour: int, o: Oracles): (Result<string, FetchError>, CacheState) {
    var (blob, st') := LoadBlob(st, MonthKey(day), o);
    match blob
    case Err(e) => (Err(e), st')
    case Ok(b) => (TarFetch(b, day, hour, o), st')
  }

  /** `fetch_consensus(day, hours)`, with `last` the error kept from the hours already tried. */
  function ConsensusFetch(st: CacheState, day: int, hours: seq<int>, o: Oracles, last: Option<FetchError>)
    : (Result<string, DayError>, CacheState)
    decreases |hours|
  {
    if |hours| == 0 then (Err(Unavailable(IsoDate(day), last)), st)
    else
      var (r, st') := MonthTarFetch(st, day, hours[0], o);
      match r
      case Ok(text) => (Ok(text), st')
      case Err(e) => ConsensusFetch(st', day, hours[1..], o, Some(e))
  }

  /** The on-disk cache of monthly archives. */
  class CacheDir {
    var files: map<string, Bytes>
    var requests: seq<string>

    function State(): CacheState
      reads this
    {
      CacheState(files, requests)
    }

    constructor (existing: map<string, Bytes>)
      ensures State() == CacheState(existing, [])
    {
      files := existing;
      requests := [];
    }

    /** Read the month's tar from the cache, or download it and save it there. */
    method LoadMonth(month: string, o: Oracles) returns (r: Result<Bytes, FetchError>)
      modifies this
      ensures (r, State()) == LoadBlob(old(State()), month, o)
    {
      var path := CachePath(month);
      if path in files {
        r := Ok(files[path]);
      } else {
        var url := MonthUrl(month);
        requests := requests + [url];
        var got := o.download(url);
        match got
        case None =>
          r := Err(DownloadFailed(url));
        case Some(blob) =>
          files := files[path := blob];
          r := Ok(blob);
      }
    }

    /** `fetch_from_month_tar`: scan the members in order and take the first whose base name matches. */
    method FetchFromMonthTar(day: int, hour: int, o: Oracles) returns (r: Result<string, FetchError>)
      modifies this
      ensures (r, State()) == MonthTarFetch(old(State()), day, hour, o)
    {
      var month := MonthKey(day);
      var blob := LoadMonth(month, o);
      if blob.Err? {
        return Err(blob.error);
      }
      var url := MonthUrl(month);
      var date := IsoDate(day);
      var hh := TwoDigits(hour);
      var listing := o.openTar(blob.value);
      if listing.None? {
        return Err(CorruptArchive(url));
      }
      var members := listing.value;
      var i := 0;
      while i < |members|
        invariant 0 <= i <= |members|
        invariant FirstMatchFrom(members, i, date, hh) == FirstMatchFrom(members, 0, date, hh)
      {
        if MemberMatches(members[i], date, hh) {
          return Extract(members[i], o);
        }
        i := i + 1;
      }
      r := Err(EntryNotFound(date, hh, url));
    }

    /** `fetch_consensus`: try the hours in order; return the first text found, else fail with the last error. */
    method FetchConsensus(day: int, hours: seq<int>, o: Oracles) returns (r: Result<string, DayError>)
      modifies this
      ensures (r, State()) == ConsensusFetch(old(State()), day, hours, o, None)
    {
      var last: Option<FetchError> := None;
      var i := 0;
      while i < |hours|
        invariant 0 <= i <= |hours|
        invariant ConsensusFetch(State(), day, hours[i..], o, last) == ConsensusFetch(old(State()), day, hours, o, None)
      {
        var attempt := FetchFromMonthTar(day, hours[i], o);
        if attempt.Ok? {
          return Ok(attempt.value);
        }
        last := Some(attempt.error);
        assert hours[i..][1..] == hours[i + 1..];
        i := i + 1;
      }
      r := Err(Unavailable(IsoDate(day), last));
    }
  }

  // ---------------------------------------------------------------------------
  // Properties

  /** Nothing is ever removed from or rewritten in the cache, and requests are only appended. */
  predicate Grows(st: CacheState, st': CacheState) {
    (forall path :: path in st.files ==> path in st'.files && st'.files[path] == st.files[path])
    && st.requests <= st'.requests
  }

  lemma {:induction false} LoadBlobGrows(st: CacheState, month: string, o: Oracles)
    ensures Grows(st, LoadBlob(st, month, o).1)
  {
  }

  lemma {:induction false} ConsensusFetchGrows(st: CacheState, day: int, hours: seq<int>, o: Oracles, last: Option<FetchError>)
    ensures Grows(st, ConsensusFetch(st, day, hours, o, last).1)
    decreases |hours|
  {
    if |hours| > 0 {
      var (r, st') := MonthTarFetch(st, day, hours[0], o);
      LoadBlobGrows(st, MonthKey(day), o);
      if r.Err? {
        ConsensusFetchGrows(st', day, hours[1..], o, Some(r.error));
      }
    }
  }

  /** A month already in the cache is read from disk: no request is made and the cache is untouched, for any list of hours. */
  lemma {:induction false} CachedMonthNoDownload(st: CacheState, day: int, hours: seq<int>, o: Oracles, last: Option<FetchError>)
    requires CachePath(MonthKey(day)) in st.files
    ensures ConsensusFetch(st, day, hours, o, last).1 == st
    decreases |hours|
  {
    if |hours| > 0 {
      var r := MonthTarFetch(st, day, hours[0], o).0;
      if r.Err? {
        CachedMonthNoDownload(st, day, hours[1..], o, Some(r.error));
      }
    }
  }

  /** After a successful download the month is cached, so the next day of the same month makes no request. */
  lemma {:induction false} DownloadedOnce(st: CacheState, month: string, o: Oracles)
    requires LoadBlob(st, month, o).0.Ok?
    ensures CachePath(month) in LoadBlob(st, month, o).1.files
    ensures var st' := LoadBlob(st, month, o).1; LoadBlob(st', month, o) == (LoadBlob(st, month, o).0, st')
  {
  }

  /** With the month's tar cached, one hour's attempt is `TarFetch` on the cached blob and leaves the cache as it is. */
  lemma {:induction false} CachedAttempt(st: CacheState, day: int, hour: int, o: Oracles)
    requires CachePath(MonthKey(day)) in st.files
    ensures MonthTarFetch(st, day, hour, o) == (TarFetch(st.files[CachePath(MonthKey(day))], day, hour, o), st)
  {
  }

  /** With the month's tar cached, `fetch_consensus` tries the first hour on the cached blob and moves on only when it fails. */
  lemma {:induction false} CachedStep(st: CacheState, day: int, hours: seq<int>, o: Oracles, last: Option<FetchError>)
    requires CachePath(MonthKey(day)) in st.files && |hours| > 0
    ensures var a := TarFetch(st.files[CachePath(MonthKey(day))], day, hours[0], o);
      ConsensusFetch(st, day, hours, o, last) ==
        if a.Ok? then (Ok(a.value), st) else ConsensusFetch(st, day, hours[1..], o, Some(a.error))
  {
    CachedAttempt(st, day, hours[0], o);
  }

  /** The outcomes of trying each hour, in order, on one cached blob. */
  function Attempts(blob: Bytes, day: int, hours: seq<int>, o: Oracles): (tries: seq<Result<string, FetchError>>)
    ensures |tries| == |hours|
    ensures forall k :: 0 <= k < |hours| ==> tries[k] == TarFetch(blob, day, hours[k], o)
  {
    seq(|hours|, k requires 0 <= k < |hours| => TarFetch(blob, day, hours[k], o))
  }

  /** The text of the first attempt that succeeded, or else the error of the last one (`last` when there were none). */
  function FirstText(tries: seq<Result<string, FetchError>>, last: Option<FetchError>): Result<string, Option<FetchError>>
    decreases |tries|
  {
    if |tries| == 0 then Err(last)
    else
      match tries[0]
      case Ok(text) => Ok(text)
      case Err(e) => FirstText(tries[1..], Some(e))
  }

  /** Succeeding iff some attempt succeeded, with the first such text; failing with the last attempt's error. */
  lemma {:induction false} FirstTextOutcome(tries: seq<Result<string, FetchError>>, last: Option<FetchError>)
    ensures FirstText(tries, last).Ok? <==> exists k :: 0 <= k < |tries| && tries[k].Ok?
    ensures FirstText(tries, last).Ok? ==>
      exists k :: 0 <= k < |tries| && tries[k] == Ok(FirstText(tries, last).value)
        && forall j :: 0 <= j < k ==> tries[j].Err?
    ensures FirstText(tries, last).Err? ==>
      FirstText(tries, last).error == if |tries| == 0 then last else Some(tries[|tries| - 1].error)
    decreases |tries|
  {
    if |tries| > 0 {
      var rest := tries[1..];
      assert forall k :: 0 <= k < |rest| ==> rest[k] == tries[k + 1];
      if tries[0].Err? {
        FirstTextOutcome(rest, Some(tries[0].error));
        if FirstText(tries, last).Ok? {
          var k :| 0 <= k < |rest| && rest[k] == Ok(FirstText(tries, last).value)
                   && forall j :: 0 <= j < k ==> rest[j].Err?;
          assert tries[k + 1] == rest[k];
          assert forall j :: 0 <= j < k + 1 ==> tries[j].Err? by {
            forall j | 0 < j < k + 1 ensures tries[j].Err? { assert tries[j] == rest[j - 1]; }
          }
        }
      }
    }
  }

  /** With the month's tar cached, `fetch_consensus` is `FirstText` over the hours' attempts, and the cache is untouched. */
  lemma {:induction false} CachedIsFirstText(st: CacheState, day: int, hours: seq<int>, o: Oracles, last: Option<FetchError>)
    requires CachePath(MonthKey(day)) in st.files
    ensures var r := FirstText(Attempts(st.files[CachePath(MonthKey(day))], day, hours, o), last);
      ConsensusFetch(st, day, hours, o, last) ==
        (if r.Ok? then Ok(r.value) else Err(Unavailable(IsoDate(day), r.error)), st)
    decreases |hours|
  {
    if |hours| > 0 {
      var blob := st.files[CachePath(MonthKey(day))];
      var tries := Attempts(blob, day, hours, o);
      CachedStep(st, day, hours, o, last);
      assert tries[1..] == Attempts(blob, day, hours[1..], o);
      if tries[0].Err? {
        CachedIsFirstText(st, day, hours[1..], o, Some(tries[0].error));
      }
    }
  }

  /**
    With the month's tar cached, `fetch_consensus` succeeds exactly when some
    hour's entry can be read, returns the text of the first such hour, and
    otherwise fails naming the day and the error of the last hour tried.
   */
  lemma {:induction false} CachedFetchOutcome(st: CacheState, day: int, hours: seq<int>, o: Oracles, last: Option<FetchError>)
    requires CachePath(MonthKey(day)) in st.files
    ensures var blob := st.files[CachePath(MonthKey(day))];
      var r := ConsensusFetch(st, day, hours, o, last).0;
      && (r.Ok? <==> exists k :: 0 <= k < |hours| && TarFetch(blob, day, hours[k], o).Ok?)
      && (r.Ok? ==> exists k :: 0 <= k < |hours| && TarFetch(blob, day, hours[k], o) == Ok(r.value)
                      && forall j :: 0 <= j < k ==> TarFetch(blob, day, hours[j], o).Err?)
      && (r.Err? ==> r.error == Unavailable(IsoDate(day),
                       if |hours| == 0 then last else Some(TarFetch(blob, day, hours[|hours| - 1], o).error)))
  {
    var blob := st.files[CachePath(MonthKey(day))];
    var tries := Attempts(blob, day, hours, o);
    CachedIsFirstText(st, day, hours, o, last);
    FirstTextOutcome(tries, last);
    var f := FirstText(tries, last);
    if f.Ok? {
      var k :| 0 <= k < |tries| && tries[k] == Ok(f.value) && forall j :: 0 <= j < k ==> tries[j].Err?;
      assert TarFetch(blob, day, hours[k], o) == Ok(f.value);
      assert forall j :: 0 <= j < k ==> TarFetch(blob, day, hours[j], o).Err?;
    }
  }

  /**
    When the month is not cached and cannot be downloaded, every hour tried
    requests the tar again, and the day fails with the download error.
   */
  lemma {:induction false} DownloadRetriedPerHour(st: CacheState, day: int, hours: seq<int>, o: Oracles, last: Option<FetchError>)
    requires CachePath(MonthKey(day)) !in st.files
    requires o.download(MonthUrl(MonthKey(day))).None?
    requires |hours| > 0
    ensures ConsensusFetch(st, day, hours, o, last) ==
      (Err(Unavailable(IsoDate(day), Some(DownloadFailed(MonthUrl(MonthKey(day)))))),
       st.(requests := st.requests + seq(|hours|, _ => MonthUrl(MonthKey(day)))))
    decreases |hours|
  {
    var url := MonthUrl(MonthKey(day));
    var st' := st.(requests := st.requests + [url]);
    assert MonthTarFetch(st, day, hours[0], o) == (Err(DownloadFailed(url)), st');
    if |hours| > 1 {
      DownloadRetriedPerHour(st', day, hours[1..], o, Some(DownloadFailed(url)));
      assert st.requests + [url] + seq(|hours| - 1, _ => url) == st.requests + seq(|hours|, _ => url);
    } else {
      assert seq(1, _ => url) == [url];
    }
  }

  /** Fallback hours are consulted only after a failure: once some prefix of the hours succeeds, further hours change nothing. */
  lemma {:induction false} LaterHoursIgnored(st: CacheState, day: int, hours: seq<int>, more: seq<int>, o: Oracles, last: Option<FetchError>)
    requires ConsensusFetch(st, day, hours, o, last).0.Ok?
    ensures ConsensusFetch(st, day, hours + more, o, last) == ConsensusFetch(st, day, hours, o, last)
    decreases |hours|
  {
    assert |hours| > 0;
    assert (hours + more)[0] == hours[0];
    var (r, st') := MonthTarFetch(st, day, hours[0], o);
    if r.Err? {
      assert (hours + more)[1..] == hours[1..] + more;
      LaterHoursIgnored(st', day, hours[1..], more, o, Some(r.error));
    }
  }

  /** With no hours at all the day fails at once, naming no error, and nothing is fetched. */
  lemma {:induction false} NoHoursFails(st: CacheState, day: int, o: Oracles)
    ensures ConsensusFetch(st, day, [], o, None) == (Err(Unavailable(IsoDate(day), None)), st)
  {
  }

  // Names

  lemma {:induction false} CandidateParts(p: string, date: string, hh: string, s: string, x: string)
    ensures var c := Candidate(p, date, hh, s, x);
      && |c| >= |p| + |date| + |hh| + 1
      && c[..|p|] == p
      && c[|p|..|p| + |date|] == date
      && c[|p| + |date| + 1..|p| + |date| + 1 + |hh|] == hh
  {
    var c := Candidate(p, date, hh, s, x);
    var head := p + date + "-" + hh;
    assert c == head + ("-00-00" + s + "-consensus" + x);
    assert head[..|p|] == p;
    assert head[|p|..|p| + |date|] == date;
    assert head[|p| + |date| + 1..|p| + |date| + 1 + |hh|] == hh;
  }

  /** The prefix a matched name starts with: "consensuses-" exactly when its first character is 'c'. */
  lemma {:induction false} MatchedPrefix(base: string, date: string, hh: string, p: string, s: string, x: string)
    requires |date| > 0 && IsDigit(date[0])
    requires p in Prefixes
    requires base == Candidate(p, date, hh, s, x) || base == Candidate(p, date, hh, s, x) + "\n"
    ensures |base| > 0 && (p == "consensuses-" <==> base[0] == 'c')
    ensures |p| == if base[0] == 'c' then 12 else 0
    ensures var q := if base[0] == 'c' then 12 else 0;
      && q + |date| + 1 + |hh| <= |base|
      && base[q..q + |date|] == date
      && base[q + |date| + 1..q + |date| + 1 + |hh|] == hh
  {
    var c := Candidate(p, date, hh, s, x);
    CandidateParts(p, date, hh, s, x);
    assert base[..|c|] == c;
    if p == "" {
      assert c[|p|..|p| + |date|][0] == date[0];
    } else {
      assert p == "consensuses-";
      assert c[..|p|][0] == 'c';
    }
  }

  /** Where the date and the hour sit in a matched name: after "consensuses-" when the name starts with 'c', else at the start. */
  lemma {:induction false} MatchedFields(base: string, date: string, hh: string)
    requires |date| > 0 && IsDigit(date[0])
    requires NameMatches(base, date, hh)
    ensures var q := if base[0] == 'c' then 12 else 0;
      && q + |date| + 1 + |hh| <= |base|
      && base[q..q + |date|] == date
      && base[q + |date| + 1..q + |date| + 1 + |hh|] == hh
  {
    var p, s, x :| p in Prefixes && s in Seconds && x in Suffixes &&
      (base == Candidate(p, date, hh, s, x) || base == Candidate(p, date, hh, s, x) + "\n");
    MatchedPrefix(base, date, hh, p, s, x);
  }

  /**
    A base name matches at most one (date, hour) pair of the fixed shapes
    `YYYY-MM-DD` and `HH`: the fallback hours select different files.
   */
  lemma {:induction false} NameNamesOneDayHour(base: string, d1: string, h1: string, d2: string, h2: string)
    requires |d1| == |d2| > 0 && IsDigit(d1[0]) && IsDigit(d2[0]) && |h1| == |h2|
    requires NameMatches(base, d1, h1) && NameMatches(base, d2, h2)
    ensures d1 == d2 && h1 == h2
  {
    MatchedFields(base, d1, h1);
    MatchedFields(base, d2, h2);
  }

  /**
    A member whose name ends in a newline still matches (the `$` of the
    pattern), but its extension test fails, so its bytes are decoded without
    decompression.
   */
  lemma {:induction false} NewlineNameNotDecompressed(m: TarMember, o: Oracles, data: Bytes)
    requires m.content == Some(data)
    requires |BaseName(m.name)| > 0 && BaseName(m.name)[|BaseName(m.name)| - 1] == '\n'
    ensures Extract(m, o) == Ok(o.utf8(data))
  {
  }
}
