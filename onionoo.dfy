/**
  onionoo_to_csv.py: pull every relay's consensus-weight history from the
  Onionoo `weights` document page by page, expand each chosen history into
  timestamped samples, and keep per relay and UTC day the sample nearest to
  a target time of day.

  The server is a finite list of relay records, served in pages of
  `PageSize`, and a failure oracle `fails(offset, attempt)` saying whether a
  given attempt at a given page fails (timeout, HTTP error, bad JSON).
 */
module Onionoo {
  import opened Wrappers
  import opened PyStr
  import opened Clock

  const PageSize := 5000
  const Retries := 4
  const DefaultInterval := 86400

  /** The history windows, longest first: the fallback order. */
  const WindowKeys: seq<string> := ["1_year", "6_months", "3_months", "1_month", "1_week"]

  /** `normalize_window`: a command-line window name to its Onionoo key; None for an unknown name. */
  function NormalizeWindow(w: Option<string>): (r: Option<string>)
    ensures r.Some? ==> r.value in WindowKeys
  {
    match w
    case None => Some("1_year")
    case Some(name) =>
      if name == "1week" then Some("1_week")
      else if name == "1month" then Some("1_month")
      else if name == "3months" then Some("3_months")
      else if name == "6months" then Some("6_months")
      else if name == "1year" then Some("1_year")
      else None
  }

  /** A key with one underscore loses exactly that underscore. */
  lemma {:induction false} DropOne(k: string, i: nat)
    requires i < |k| && k[i] == '_'
    requires forall j :: 0 <= j < |k| && j != i ==> k[j] != '_'
    ensures DropUnderscores(k) == k[..i] + k[i + 1..]
  {
    var a, b := k[..i], k[i + 1..];
    assert k == a + "_" + b;
    DropUnderscoresAppend(a + "_", b);
    DropUnderscoresAppend(a, "_");
    NoUnderscoresUnchanged(a);
    NoUnderscoresUnchanged(b);
    assert "_"[..0] == [];
  }

  lemma {:induction false} Drop1Year()
    ensures DropUnderscores("1_year") == "1year"
  {
    DropOne("1_year", 1);
    assert "1_year"[..1] + "1_year"[2..] == "1year";
  }

  lemma {:induction false} Drop6Months()
    ensures DropUnderscores("6_months") == "6months"
  {
    DropOne("6_months", 1);
    assert "6_months"[..1] + "6_months"[2..] == "6months";
  }

  lemma {:induction false} Drop3Months()
    ensures DropUnderscores("3_months") == "3months"
  {
    DropOne("3_months", 1);
    assert "3_months"[..1] + "3_months"[2..] == "3months";
  }

  lemma {:induction false} Drop1Month()
    ensures DropUnderscores("1_month") == "1month"
  {
    DropOne("1_month", 1);
    assert "1_month"[..1] + "1_month"[2..] == "1month";
  }

  lemma {:induction false} Drop1Week()
    ensures DropUnderscores("1_week") == "1week"
  {
    DropOne("1_week", 1);
    assert "1_week"[..1] + "1_week"[2..] == "1week";
  }

  /**
    The command-line window names are exactly the Onionoo keys with their
    underscore removed, and no other name is accepted.
   */
  lemma {:induction false} NormalizeWindowInverse(name: string, k: string)
    ensures NormalizeWindow(Some(name)) == Some(k) <==> k in WindowKeys && name == DropUnderscores(k)
  {
    Drop1Year(); Drop6Months(); Drop3Months(); Drop1Month(); Drop1Week();
    if k in WindowKeys && name == DropUnderscores(k) {
      assert k == "1_year" || k == "6_months" || k == "3_months" || k == "1_month" || k == "1_week";
    }
  }

  // ---------------------------------------------------------------------
  // Relay records

  /**
    A JSON field read by `pd.to_datetime` or `int()`: missing, JSON null,
    unreadable, or a value. `pd.to_datetime` turns null into None without
    raising; `int()` raises on it.
   */
  datatype Field = Absent | Null | Unparsable | Given(v: int)

  /** The `values` entry of a history: missing, not a JSON list, or a list with nulls. */
  datatype Values = NoValues | NotAList | Listed(items: seq<Option<int>>)

  /**
    One history object. `first` is already a timestamp in seconds when
    readable; `otherKeys` records whether the object has keys besides these
    three (it then is a non-empty, truthy dict even without them).
   */
  datatype History = History(first: Field, interval: Field, values: Values, otherKeys: bool)

  /** A dict is truthy when it has at least one key. */
  predicate Truthy(h: History) {
    h.first != Absent || h.interval != Absent || h.values != NoValues || h.otherKeys
  }

  /**
    One relay object of a page: its `fingerprint` (None when missing or
    null) and its `consensus_weight` dict (None when missing or null), whose
    entries may be JSON null.
   */
  datatype Relay = Relay(fingerprint: Option<string>, weights: Option<map<string, Option<History>>>)

  /** Index of the first of `keys` present in `cw`. */
  function FirstPresent(keys: seq<string>, cw: map<string, Option<History>>): (k: Option<nat>)
    ensures k.Some? ==> k.value < |keys| && keys[k.value] in cw
    ensures k.Some? ==> forall j :: 0 <= j < k.value ==> keys[j] !in cw
    ensures k.None? ==> forall j :: 0 <= j < |keys| ==> keys[j] !in cw
  {
    if |keys| == 0 then None
    else if keys[0] in cw then Some(0)
    else match FirstPresent(keys[1..], cw)
      case None => None
      case Some(i) => Some(i + 1)
  }

  predicate PreferredHit(cw: map<string, Option<History>>, preferred: Option<string>) {
    preferred.Some? && preferred.value != "" && preferred.value in cw
  }

  /**
    `choose_history`: the preferred window when it is present, else the
    first present window in `WindowKeys` order. None when the weights are
    missing or empty, when no window is present, or when the chosen entry
    is JSON null.
   */
  function ChooseHistory(weights: Option<map<string, Option<History>>>, preferred: Option<string>): Option<History> {
    match weights
    case None => None
    case Some(cw) =>
      if |cw| == 0 then None
      else if PreferredHit(cw, preferred) then cw[preferred.value]
      else match FirstPresent(WindowKeys, cw)
        case None => None
        case Some(i) => cw[WindowKeys[i]]
  }

  /** A present, non-empty preferred window is taken whatever else is present. */
  lemma {:induction false} PreferredWindowWins(cw: map<string, Option<History>>, p: string)
    requires p != "" && p in cw
    ensures ChooseHistory(Some(cw), Some(p)) == cw[p]
  {
    assert p in cw.Keys;
  }

  /**
    Without a usable preferred window, the first window of `WindowKeys`
    present in the weights is taken, whatever follows it.
   */
  lemma {:induction false} FallbackOrder(cw: map<string, Option<History>>, preferred: Option<string>, i: nat)
    requires !PreferredHit(cw, preferred)
    requires i < |WindowKeys| && WindowKeys[i] in cw
    requires forall j :: 0 <= j < i ==> WindowKeys[j] !in cw
    ensures ChooseHistory(Some(cw), preferred) == cw[WindowKeys[i]]
  {
    assert WindowKeys[i] in cw.Keys;
  }

  /** Missing or empty weights, or weights with neither the preferred nor any known window, give no history. */
  lemma {:induction false} NoHistoryChosen(weights: Option<map<string, Option<History>>>, preferred: Option<string>)
    requires weights.None? || |weights.value| == 0 ||
      (!PreferredHit(weights.value, preferred) && forall j :: 0 <= j < |WindowKeys| ==> WindowKeys[j] !in weights.value)
    ensures ChooseHistory(weights, preferred).None?
  {
  }

  /** One expanded sample; a null value stays null. */
  datatype Sample = Sample(timestamp: int, value: Option<int>)

  function ValueList(v: Values): seq<Option<int>> {
    if v.Listed? then v.items else []
  }

  function Interval(f: Field): int {
    if f.Given? then f.v else DefaultInterval
  }

  /** `int(hist.get("interval", 86400))` raises on a null or unreadable interval. */
  predicate BadInterval(f: Field) {
    f.Null? || f.Unparsable?
  }

  /**
    `unpack_history`: sample i is stamped `first + i * interval`. None
    stands for the exception raised by a missing or unreadable `first`, by
    an unreadable or null `interval`, or by adding the first step to a null
    `first` (`None + Timedelta`), which only happens when there are values.
   */
  function UnpackHistory(h: History): (r: Option<seq<Sample>>)
    ensures r.None? <==>
      h.first.Absent? || h.first.Unparsable? || BadInterval(h.interval) ||
      (h.first.Null? && |ValueList(h.values)| > 0)
    ensures r.Some? ==> |r.value| == |ValueList(h.values)|
  {
    match h.first
    case Absent => None
    case Unparsable => None
    case Null =>
      if BadInterval(h.interval) || |ValueList(h.values)| > 0 then None else Some([])
    case Given(first) =>
      if BadInterval(h.interval) then None
      else
        var step := Interval(h.interval);
        var vals := ValueList(h.values);
        Some(seq(|vals|, i requires 0 <= i < |vals| => Sample(first + i * step, vals[i])))
  }

  /**
    An unpacked history starts at `first`, is evenly spaced by the interval
    (86400 s when absent), and keeps every value, nulls included, in order.
   */
  lemma {:induction false} UnpackedTimeline(h: History)
    requires UnpackHistory(h).Some?
    ensures var samples := UnpackHistory(h).value;
      && (|samples| > 0 ==> samples[0].timestamp == h.first.v)
      && (forall i :: 0 < i < |samples| ==> samples[i].timestamp - samples[i - 1].timestamp == Interval(h.interval))
      && (forall i :: 0 <= i < |samples| ==> samples[i].value == ValueList(h.values)[i])
      && (h.interval.Absent? ==> Interval(h.interval) == 86400)
  {
    var samples := UnpackHistory(h).value;
    var step := Interval(h.interval);
    forall i | 0 < i < |samples|
      ensures samples[i].timestamp - samples[i - 1].timestamp == step
    {
      assert samples[i].timestamp == h.first.v + i * step;
      assert samples[i - 1].timestamp == h.first.v + (i - 1) * step;
      assert i * step - (i - 1) * step == step;
    }
  }

  /** A history that is not a list of values expands to no samples at all. */
  lemma {:induction false} NonListExpandsToNothing(h: History)
    requires (h.first.Given? || h.first.Null?) && !BadInterval(h.interval) && !h.values.Listed?
    ensures UnpackHistory(h) == Some([])
  {
  }

  /** One observation of the fetched table: a relay's sample with a non-null value. */
  datatype Obs = Obs(fingerprint: string, timestamp: int, value: int)

  /** `dropna(subset=["value"])` then the `fingerprint` column. */
  function Present(fp: string, samples: seq<Sample>): (obs: seq<Obs>)
    ensures |obs| <= |samples|
    ensures forall i :: 0 <= i < |obs| ==> obs[i].fingerprint == fp && Sample(obs[i].timestamp, Some(obs[i].value)) in samples
    ensures forall s :: s in samples && s.value.Some? ==> Obs(fp, s.timestamp, s.value.value) in obs
  {
    if |samples| == 0 then []
    else
      var rest := Present(fp, samples[1..]);
      match samples[0].value
      case None => rest
      case Some(v) => [Obs(fp, samples[0].timestamp, v)] + rest
  }

  datatype FetchError = RequestFailed(offset: nat) | MalformedHistory(fingerprint: string)

  /**
    What one relay object adds to the table: nothing for a missing or empty
    fingerprint, no chosen history, an empty history or only null values;
    an error when its history cannot be unpacked.
   */
  function RelayRows(r: Relay, window: Option<string>): Result<seq<Obs>, FetchError> {
    match r.fingerprint
    case None => Ok([])
    case Some(fp) =>
      if fp == "" then Ok([])
      else match ChooseHistory(r.weights, window)
        case None => Ok([])
        case Some(h) =>
          if !Truthy(h) then Ok([])
          else match UnpackHistory(h)
            case None => Err(MalformedHistory(fp))
            case Some(samples) => Ok(Present(fp, samples))
  }

  /** Sequencing of two fetch steps: the first error wins, else the rows are concatenated. */
  function Then(a: Result<seq<Obs>, FetchError>, b: Result<seq<Obs>, FetchError>): Result<seq<Obs>, FetchError> {
    if a.Err? then a else if b.Err? then b else Ok(a.value + b.value)
  }

  /** The rows of a page's relays, in order; the first malformed history aborts. */
  function PageRows(page: seq<Relay>, window: Option<string>): Result<seq<Obs>, FetchError> {
    if |page| == 0 then Ok([]) else Then(RelayRows(page[0], window), PageRows(page[1..], window))
  }

  /** The relays `fetch_all` skips add no rows and raise nothing. */
  lemma {:induction false} SkippedRelays(r: Relay, window: Option<string>)
    requires
      || r.fingerprint.None? || r.fingerprint.value == ""
      || ChooseHistory(r.weights, window).None?
      || !Truthy(ChooseHistory(r.weights, window).value)
      || (UnpackHistory(ChooseHistory(r.weights, window).value).Some? &&
          forall s :: s in UnpackHistory(ChooseHistory(r.weights, window).value).value ==> s.value.None?)
    ensures RelayRows(r, window) == Ok([])
  {
    if r.fingerprint.Some? && r.fingerprint.value != "" {
      var h := ChooseHistory(r.weights, window);
      if h.Some? && Truthy(h.value) && UnpackHistory(h.value).Some? {
        var samples := UnpackHistory(h.value).value;
        if forall s :: s in samples ==> s.value.None? {
          NullsDropped(r.fingerprint.value, samples);
        }
      }
    }
  }

  lemma {:induction false} NullsDropped(fp: string, samples: seq<Sample>)
    requires forall s :: s in samples ==> s.value.None?
    ensures Present(fp, samples) == []
  {
    if |samples| > 0 {
      assert samples[0] in samples;
      NullsDropped(fp, samples[1..]);
    }
  }

  /**
    A kept relay contributes exactly its non-null samples, each under its
    own fingerprint.
   */
  lemma {:induction false} KeptRelay(r: Relay, window: Option<string>, o: Obs)
    requires RelayRows(r, window).Ok?
    ensures o in RelayRows(r, window).value <==>
      && r.fingerprint.Some? && o.fingerprint == r.fingerprint.value != ""
      && ChooseHistory(r.weights, window).Some?
      && Truthy(ChooseHistory(r.weights, window).value)
      && UnpackHistory(ChooseHistory(r.weights, window).value).Some?
      && Sample(o.timestamp, Some(o.value)) in UnpackHistory(ChooseHistory(r.weights, window).value).value
  {
    if r.fingerprint.Some? && r.fingerprint.value != "" {
      var fp := r.fingerprint.value;
      var h := ChooseHistory(r.weights, window);
      if h.Some? && Truthy(h.value) && UnpackHistory(h.value).Some? {
        var samples := UnpackHistory(h.value).value;
        var obs := Present(fp, samples);
        if o in obs {
          var i :| 0 <= i < |obs| && obs[i] == o;
        }
        if o.fingerprint == fp && Sample(o.timestamp, Some(o.value)) in samples {
          var s := Sample(o.timestamp, Some(o.value));
          assert Obs(fp, s.timestamp, s.value.value) in obs;
        }
      }
    }
  }

  /** The rows of two runs of relays are those of the first, then those of the second. */
  lemma {:induction false} PageRowsAppend(a: seq<Relay>, b: seq<Relay>, window: Option<string>)
    ensures PageRows(a + b, window) == Then(PageRows(a, window), PageRows(b, window))
  {
    if |a| == 0 {
      assert a + b == b;
      ThenUnit(PageRows(b, window));
    } else {
      assert (a + b)[0] == a[0] && (a + b)[1..] == a[1..] + b;
      PageRowsAppend(a[1..], b, window);
      ThenAssoc(RelayRows(a[0], window), PageRows(a[1..], window), PageRows(b, window));
    }
  }

  // ---------------------------------------------------------------------
  // The server and the two loops

  datatype Server = Server(relays: seq<Relay>, fails: (nat, nat) -> bool)

  function Min(a: int, b: int): int { if a <= b then a else b }

  /** The answer to `limit=PageSize, offset=offset`. */
  function Page(s: Server, offset: nat): (page: seq<Relay>)
    ensures offset <= |s.relays| ==> |page| == Min(PageSize, |s.relays| - offset)
  {
    s.relays[Min(offset, |s.relays|)..Min(offset + PageSize, |s.relays|)]
  }

  /** The first attempt, from `attempt` up to `Retries`, that succeeds. */
  function FirstSuccess(s: Server, offset: nat, attempt: nat): (k: Option<nat>)
    requires 1 <= attempt
    ensures k.Some? ==> attempt <= k.value <= Retries && !s.fails(offset, k.value)
    ensures k.Some? ==> forall j :: attempt <= j < k.value ==> s.fails(offset, j)
    ensures k.None? ==> forall j :: attempt <= j <= Retries ==> s.fails(offset, j)
    decreases Retries + 1 - attempt
  {
    if attempt > Retries then None
    else if !s.fails(offset, attempt) then Some(attempt)
    else FirstSuccess(s, offset, attempt + 1)
  }

  /** The outcome of `get_json` for one page. */
  function Request(s: Server, offset: nat): Result<seq<Relay>, FetchError> {
    if FirstSuccess(s, offset, 1).Some? then Ok(Page(s, offset)) else Err(RequestFailed(offset))
  }

  /**
    `get_json`: attempts 1 to `Retries` in turn; the first success is
    returned, and the failure of the last attempt is raised. The back-off
    sleep between attempts is not modelled.
   */
  method GetJson(s: Server, offset: nat) returns (r: Result<seq<Relay>, FetchError>, attempts: nat)
    ensures 1 <= attempts <= Retries
    ensures forall j :: 1 <= j < attempts ==> s.fails(offset, j)
    ensures r.Ok? <==> !s.fails(offset, attempts)
    ensures r.Ok? ==> r.value == Page(s, offset)
    ensures r.Err? ==> attempts == Retries && r.error == RequestFailed(offset)
    ensures r == Request(s, offset)
  {
    attempts := 1;
    while true
      invariant 1 <= attempts <= Retries
      invariant forall j :: 1 <= j < attempts ==> s.fails(offset, j)
      invariant FirstSuccess(s, offset, 1) == FirstSuccess(s, offset, attempts)
      decreases Retries - attempts
    {
      if !s.fails(offset, attempts) {
        return Ok(Page(s, offset)), attempts;
      }
      if attempts == Retries {
        return Err(RequestFailed(offset)), attempts;
      }
      attempts := attempts + 1;
    }
  }

  /**
    The whole of `fetch_all` from `offset` on: stop at an empty page, take a
    short page as the last one, otherwise go on at `offset + PageSize`.
   */
  function Fetched(s: Server, offset: nat, window: Option<string>): Result<seq<Obs>, FetchError>
    requires offset <= |s.relays|
    decreases |s.relays| - offset
  {
    match Request(s, offset)
    case Err(e) => Err(e)
    case Ok(page) =>
      if |page| == 0 then Ok([])
      else if |page| < PageSize then PageRows(page, window)
      else Then(PageRows(page, window), Fetched(s, offset + PageSize, window))
  }

  /** The inner loop of `fetch_all` over one page's relay objects. */
  method ScanPage(page: seq<Relay>, window: Option<string>) returns (r: Result<seq<Obs>, FetchError>)
    ensures r == PageRows(page, window)
  {
    var rows: seq<Obs> := [];
    assert page[0..] == page;
    ThenUnit(PageRows(page, window));
    for i := 0 to |page|
      invariant PageRows(page, window) == Then(Ok(rows), PageRows(page[i..], window))
    {
      assert page[i..][0] == page[i] && page[i..][1..] == page[i + 1..];
      var obj := page[i];
      ThenAssoc(Ok(rows), RelayRows(obj, window), PageRows(page[i + 1..], window));
      assert rows + [] == rows;
      if obj.fingerprint.None? || obj.fingerprint.value == "" {
        continue;
      }
      var fp := obj.fingerprint.value;
      var hist := ChooseHistory(obj.weights, window);
      if hist.None? || !Truthy(hist.value) {
        continue;
      }
      var unpacked := UnpackHistory(hist.value);
      if unpacked.None? {
        return Err(MalformedHistory(fp));
      }
      var kept := Present(fp, unpacked.value);
      if |kept| == 0 {
        continue;
      }
      rows := rows + kept;
    }
    assert page[|page|..] == [] && rows + [] == rows;
    return Ok(rows);
  }

  /** `fetch_all` (before its final sort): pages from offset 0 until an empty or short page. */
  method FetchAll(s: Server, window: Option<string>) returns (r: Result<seq<Obs>, FetchError>)
    ensures r == Fetched(s, 0, window)
  {
    var rows: seq<Obs> := [];
    var offset: nat := 0;
    ThenUnit(Fetched(s, 0, window));
    while true
      invariant offset <= |s.relays|
      invariant Fetched(s, 0, window) == Then(Ok(rows), Fetched(s, offset, window))
      decreases |s.relays| - offset
    {
      var j, _ := GetJson(s, offset);
      if j.Err? {
        return Err(j.error);
      }
      var relays := j.value;
      if |relays| == 0 {
        assert rows + [] == rows;
        break;
      }
      var got := ScanPage(relays, window);
      if got.Err? {
        return Err(got.error);
      }
      if |relays| < PageSize {
        rows := rows + got.value;
        break;
      }
      ThenAssoc(Ok(rows), got, Fetched(s, offset + PageSize, window));
      rows := rows + got.value;
      offset := offset + PageSize;
    }
    return Ok(rows);
  }

  lemma {:induction false} ThenUnit(a: Result<seq<Obs>, FetchError>)
    ensures Then(Ok([]), a) == a
  {
    if a.Ok? {
      assert [] + a.value == a.value;
    }
  }

  lemma {:induction false} ThenAssoc(a: Result<seq<Obs>, FetchError>, b: Result<seq<Obs>, FetchError>, c: Result<seq<Obs>, FetchError>)
    ensures Then(Then(a, b), c) == Then(a, Then(b, c))
  {
    if a.Ok? && b.Ok? && c.Ok? {
      assert a.value + b.value + c.value == a.value + (b.value + c.value);
    }
  }

  /** Every page request from `offset` on succeeds within its attempts. */
  ghost predicate Reachable(s: Server) {
    forall offset: nat :: FirstSuccess(s, offset, 1).Some?
  }

  lemma {:induction false} FetchedFrom(s: Server, offset: nat, window: Option<string>)
    requires offset <= |s.relays| && Reachable(s)
    ensures Fetched(s, offset, window) == PageRows(s.relays[offset..], window)
    decreases |s.relays| - offset
  {
    assert FirstSuccess(s, offset, 1).Some?;
    var page := Page(s, offset);
    var rest := s.relays[offset..];
    if |page| == 0 {
      assert rest == [];
    } else if |page| < PageSize {
      assert page == rest;
    } else {
      FetchedFrom(s, offset + PageSize, window);
      assert rest == page + s.relays[offset + PageSize..];
      PageRowsAppend(page, s.relays[offset + PageSize..], window);
    }
  }

  /**
    Paging is invisible when the server answers: `fetch_all` yields the rows
    of every relay in server order, whether or not the relay count is a
    multiple of the page size.
   */
  lemma {:induction false} PaginationCoversAllRelays(s: Server, window: Option<string>)
    requires Reachable(s)
    ensures Fetched(s, 0, window) == PageRows(s.relays, window)
  {
    FetchedFrom(s, 0, window);
    assert s.relays[0..] == s.relays;
  }

  /** A page request that fails all its attempts fails the whole fetch, whatever was gathered before. */
  lemma {:induction false} FailedPageFailsFetch(s: Server, offset: nat, window: Option<string>)
    requires offset <= |s.relays|
    requires forall j :: 1 <= j <= Retries ==> s.fails(offset, j)
    ensures Fetched(s, offset, window) == Err(RequestFailed(offset))
  {
    assert FirstSuccess(s, offset, 1).None?;
  }

  /** Every observation of the table carries a non-empty fingerprint. */
  predicate Named(obs: seq<Obs>) {
    forall i :: 0 <= i < |obs| ==> obs[i].fingerprint != ""
  }

  lemma {:induction false} PageRowsNamed(page: seq<Relay>, window: Option<string>)
    requires PageRows(page, window).Ok?
    ensures Named(PageRows(page, window).value)
    decreases |page|
  {
    if |page| > 0 {
      var head := RelayRows(page[0], window);
      PageRowsNamed(page[1..], window);
      forall o | o in head.value ensures o.fingerprint != "" {
        KeptRelay(page[0], window, o);
      }
    }
  }

  /** Relays without a fingerprint never reach the table: every fetched row names its relay. */
  lemma {:induction false} FetchedNamed(s: Server, offset: nat, window: Option<string>)
    requires offset <= |s.relays| && Fetched(s, offset, window).Ok?
    ensures Named(Fetched(s, offset, window).value)
    decreases |s.relays| - offset
  {
    var page := Request(s, offset).value;
    if 0 < |page| {
      PageRowsNamed(page, window);
      if PageSize <= |page| {
        FetchedNamed(s, offset + PageSize, window);
      }
    }
  }

  // ---------------------------------------------------------------------
  // Nearest daily sample

  /** The (fingerprint, UTC day) group an observation belongs to. */
  function KeyOf(o: Obs): (string, int) {
    (o.fingerprint, Day(o.timestamp))
  }

  /** The target instant of a day: that day at HH:MM UTC. */
  function Target(day: int, hh: int, mm: int): int {
    day * SecondsPerDay + hh * 3600 + mm * 60
  }

  function Distance(o: Obs, target: int): nat {
    if o.timestamp >= target then o.timestamp - target else target - o.timestamp
  }

  /** The observations of one group, in table order. */
  function Group(obs: seq<Obs>, k: (string, int)): (g: seq<Obs>)
    ensures forall o :: o in g <==> o in obs && KeyOf(o) == k
  {
    if |obs| == 0 then []
    else
      var rest := Group(obs[1..], k);
      assert forall o :: o in obs <==> o == obs[0] || o in obs[1..];
      if KeyOf(obs[0]) == k then [obs[0]] + rest else rest
  }

  /** `idxmin` of the distances: the first position of the smallest distance. */
  function Closest(g: seq<Obs>, target: int): (i: nat)
    requires |g| > 0
    ensures i < |g|
    ensures forall j :: 0 <= j < |g| ==> Distance(g[i], target) <= Distance(g[j], target)
    ensures forall j :: 0 <= j < i ==> Distance(g[i], target) < Distance(g[j], target)
  {
    if |g| == 1 then 0
    else
      var best := Closest(g[1..], target) + 1;
      if Distance(g[0], target) <= Distance(g[best], target) then 0 else best
  }

  /** The distinct (fingerprint, day) pairs of a table. */
  function Keys(obs: seq<Obs>): set<(string, int)> {
    set i | 0 <= i < |obs| :: KeyOf(obs[i])
  }

  lemma {:induction false} GroupNonEmpty(obs: seq<Obs>, k: (string, int))
    requires k in Keys(obs)
    ensures |Group(obs, k)| > 0
  {
    var i :| 0 <= i < |obs| && KeyOf(obs[i]) == k;
    assert obs[i] in Group(obs, k);
  }

  /** `pick_closest` applied to the group of `k`. */
  function Pick(obs: seq<Obs>, k: (string, int), hh: int, mm: int): Obs
    requires k in Keys(obs)
  {
    GroupNonEmpty(obs, k);
    var g := Group(obs, k);
    g[Closest(g, Target(k.1, hh, mm))]
  }

  /** `nearest_daily_sample`: one picked observation per (fingerprint, day) group. */
  function NearestDailySample(obs: seq<Obs>, hh: int, mm: int): (picked: map<(string, int), Obs>)
    ensures picked.Keys == Keys(obs)
  {
    map k | k in Keys(obs) :: Pick(obs, k, hh, mm)
  }

  /**
    Each (fingerprint, day) group's pick is one of its own observations, at
    the smallest distance from that day at HH:MM UTC; earlier observations
    of the group are strictly farther.
   */
  lemma {:induction false} NearestIsClosest(obs: seq<Obs>, hh: int, mm: int, k: (string, int))
    requires k in Keys(obs)
    ensures var p := NearestDailySample(obs, hh, mm)[k];
      && p in obs && KeyOf(p) == k
      && forall o :: o in obs && KeyOf(o) == k ==> Distance(p, Target(k.1, hh, mm)) <= Distance(o, Target(k.1, hh, mm))
  {
    GroupNonEmpty(obs, k);
    var g := Group(obs, k);
    var t := Target(k.1, hh, mm);
    var i := Closest(g, t);
    assert g[i] in g;
    forall o | o in obs && KeyOf(o) == k ensures Distance(g[i], t) <= Distance(o, t) {
      assert o in g;
      var j :| 0 <= j < |g| && g[j] == o;
    }
  }

  /**
    When a group is in timestamp order (as `fetch_all`'s sort leaves it),
    a tie in distance goes to the earlier sample.
   */
  lemma {:induction false} TieGoesToEarlier(g: seq<Obs>, target: int, j: nat)
    requires |g| > 0 && j < |g|
    requires forall a, b :: 0 <= a < b < |g| ==> g[a].timestamp <= g[b].timestamp
    requires Distance(g[j], target) == Distance(g[Closest(g, target)], target)
    ensures g[Closest(g, target)].timestamp <= g[j].timestamp
  {
  }

  /** There is exactly one daily row per distinct (fingerprint, day) pair of the fetched table. */
  lemma {:induction false} OneRowPerPair(obs: seq<Obs>, hh: int, mm: int, fp: string, day: int)
    ensures (fp, day) in NearestDailySample(obs, hh, mm) <==> exists o :: o in obs && o.fingerprint == fp && Day(o.timestamp) == day
  {
    if exists o :: o in obs && o.fingerprint == fp && Day(o.timestamp) == day {
      var o :| o in obs && o.fingerprint == fp && Day(o.timestamp) == day;
      var i :| 0 <= i < |obs| && obs[i] == o;
      assert KeyOf(obs[i]) == (fp, day);
    }
  }

  // ---------------------------------------------------------------------
  // The script

  datatype Outcome = NoData | BadSampleTime | FetchFailed(error: FetchError) | Wrote(daily: map<(string, int), Obs>)

  /** The exit status of each outcome; a fetch error is raised and not caught. */
  function ExitCode(o: Outcome): int {
    match o
    case NoData => 2
    case BadSampleTime => 2
    case FetchFailed(_) => 1
    case Wrote(_) => 0
  }

  /**
    `main` after argument parsing: fetch, refuse an empty table, then read
    the sample time, then pick the daily samples.
   */
  method Export(s: Server, window: Option<string>, sampleTime: string) returns (outcome: Outcome)
    ensures Fetched(s, 0, NormalizeWindow(window)).Err? ==>
      outcome == FetchFailed(Fetched(s, 0, NormalizeWindow(window)).error)
    ensures outcome == NoData <==> Fetched(s, 0, NormalizeWindow(window)) == Ok([])
    ensures outcome.BadSampleTime? <==>
      Fetched(s, 0, NormalizeWindow(window)).Ok? && |Fetched(s, 0, NormalizeWindow(window)).value| > 0 &&
      ParseHhmm(sampleTime).None?
    ensures (Fetched(s, 0, NormalizeWindow(window)).Ok? && |Fetched(s, 0, NormalizeWindow(window)).value| > 0 &&
             ParseHhmm(sampleTime).Some?) ==>
      var raw := Fetched(s, 0, NormalizeWindow(window)).value;
      var hm := ParseHhmm(sampleTime).value;
      outcome == Wrote(NearestDailySample(raw, hm.0, hm.1))
  {
    var preferred := NormalizeWindow(window);
    var raw := FetchAll(s, preferred);
    if raw.Err? {
      return FetchFailed(raw.error);
    }
    if |raw.value| == 0 {
      return NoData;
    }
    match ParseHhmm(sampleTime)
    case None =>
      return BadSampleTime;
    case Some(hm) =>
      return Wrote(NearestDailySample(raw.value, hm.0, hm.1));
  }
}
