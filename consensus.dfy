/**
  `parse_consensus`: a consensus document is read line by line with one
  "pending fingerprint" slot. An `r` line sets (or overwrites) the slot, a `w`
  line records the pending relay's `Bandwidth=` and always clears the slot, and
  every other line is ignored without touching it.
 */
module Consensus {
  import opened Wrappers
  import opened PyStr
  import opened Base64

  /** The pending-fingerprint slot: `current_fp`. */
  datatype Pending = Idle | Awaiting(fp: string)

  datatype ParseState = ParseState(pending: Pending, results: map<string, int>)

  const Start := ParseState(Idle, map[])

  /** `current_fp` is truthy: a fingerprint is pending and it is not the empty string. */
  predicate HasPending(p: Pending) {
    p.Awaiting? && p.fp != ""
  }

  predicate IsRelayLine(line: string) { StartsWith(line, "r ") }

  predicate IsWeightLine(line: string) { StartsWith(line, "w ") }

  /** The fingerprint an `r` line names: its third token through `b64_to_hex`; None for a short line or an undecodable identity. */
  function RelayIdentity(line: string): Option<string> {
    var parts := Split(line);
    if |parts| >= 3 then B64ToHex(parts[2]) else None
  }

  /** The text after "Bandwidth=" in the first token that starts with it. */
  function FirstBandwidthText(tokens: seq<string>): (r: Option<string>)
    ensures r.Some? ==> exists k :: 0 <= k < |tokens| && StartsWith(tokens[k], "Bandwidth=")
  {
    if |tokens| == 0 then None
    else if StartsWith(tokens[0], "Bandwidth=") then Some(tokens[0][10..])
    else FirstBandwidthText(tokens[1..])
  }

  /** `parts[1:]`. */
  function Rest(parts: seq<string>): seq<string> {
    if |parts| == 0 then [] else parts[1..]
  }

  /** The value a `w` line records: `int` of its first `Bandwidth=` value, None if there is none or it is not an integer. */
  function WeightValue(line: string): Option<int> {
    match FirstBandwidthText(Rest(Split(line)))
    case None => None
    case Some(text) => ParseInt(text)
  }

  /** One line of the loop in `parse_consensus`. */
  function Step(st: ParseState, line: string): ParseState {
    if line == "" then st
    else if IsRelayLine(line) then
      ParseState(match RelayIdentity(line) case None => Idle case Some(fp) => Awaiting(fp), st.results)
    else if HasPending(st.pending) && IsWeightLine(line) then
      var results := match WeightValue(line)
        case None => st.results
        case Some(bw) => st.results[st.pending.fp := bw];
      ParseState(Idle, results)
    else st
  }

  /** The fold of `Step` over the lines, left to right. */
  function Run(st: ParseState, lines: seq<string>): ParseState
    decreases |lines|
  {
    if |lines| == 0 then st else Run(Step(st, lines[0]), lines[1..])
  }

  /** What `parse_consensus(text)` returns. */
  function Parse(text: string): map<string, int> {
    Run(Start, SplitLines(text)).results
  }

  /** The inner loop of `parse_consensus` over the tokens after `w`: the first `Bandwidth=` token's value, if it parses. */
  method ScanWeightLine(line: string) returns (bw: Option<int>)
    ensures bw == WeightValue(line)
  {
    var parts := Rest(Split(line));
    bw := None;
    var j := 0;
    while j < |parts|
      invariant 0 <= j <= |parts|
      invariant FirstBandwidthText(parts) == FirstBandwidthText(parts[j..])
    {
      assert parts[j..][1..] == parts[j + 1..];
      if StartsWith(parts[j], "Bandwidth=") {
        bw := ParseInt(parts[j][10..]);
        return;
      }
      j := j + 1;
    }
  }

  /** `parse_consensus`: the loop over `splitlines()` with `current_fp` and the `results` dict. */
  method ParseConsensus(text: string) returns (results: map<string, int>)
    ensures results == Parse(text)
  {
    var lines := SplitLines(text);
    results := map[];
    var current: Pending := Idle;
    var i := 0;
    while i < |lines|
      invariant 0 <= i <= |lines|
      invariant Run(ParseState(current, results), lines[i..]) == Run(Start, lines)
    {
      var line := lines[i];
      assert lines[i..][1..] == lines[i + 1..];
      if line == "" {
      } else if IsRelayLine(line) {
        var parts := Split(line);
        if |parts| >= 3 {
          match B64ToHex(parts[2])
          case None => current := Idle;
          case Some(fp) => current := Awaiting(fp);
        } else {
          current := Idle;
        }
      } else if current.Awaiting? && current.fp != "" && IsWeightLine(line) {
        var bw := ScanWeightLine(line);
        if bw.Some? {
          results := results[current.fp := bw.value];
        }
        current := Idle;
      }
      i := i + 1;
    }
  }

  // ---------------------------------------------------------------------------
  // Properties of the line fold

  /** Running over two pieces is running over the first, then the second. */
  lemma {:induction false} RunAppend(st: ParseState, a: seq<string>, b: seq<string>)
    ensures Run(st, a + b) == Run(Run(st, a), b)
    decreases |a|
  {
    if |a| == 0 {
      assert a + b == b;
    } else {
      assert (a + b)[0] == a[0];
      assert (a + b)[1..] == a[1..] + b;
      RunAppend(Step(st, a[0]), a[1..], b);
    }
  }

  /**
    An `r` line sets the slot to its fingerprint, or clears it when the line
    has fewer than three tokens or the identity does not decode; it never
    changes the results. A second `r` line before any `w` line therefore
    replaces the first, whose relay gets no entry.
   */
  lemma {:induction false} RelayLineSetsPending(st: ParseState, line: string)
    requires IsRelayLine(line)
    ensures Step(st, line).results == st.results
    ensures |Split(line)| < 3 ==> Step(st, line).pending == Idle
    ensures |Split(line)| >= 3 && B64ToHex(Split(line)[2]).None? ==> Step(st, line).pending == Idle
    ensures |Split(line)| >= 3 && B64ToHex(Split(line)[2]).Some? ==>
              Step(st, line).pending == Awaiting(B64ToHex(Split(line)[2]).value)
  {
    assert line != "";
  }

  lemma {:induction false} SecondRelayLineOverwrites(st: ParseState, r1: string, r2: string)
    requires IsRelayLine(r1) && IsRelayLine(r2)
    ensures Run(st, [r1, r2]) == Step(st, r2)
  {
    var s1 := Step(st, r1);
    assert [r1, r2][1..] == [r2] && [r2][1..] == [];
    assert Run(st, [r1, r2]) == Run(s1, [r2]) == Step(s1, r2);
    assert r1 != "" && r2 != "";
    assert s1.results == st.results;
  }

  /**
    A `w` line while a fingerprint is pending records the first `Bandwidth=`
    value under it (nothing when that value is not an integer) and clears the
    slot in every case.
   */
  lemma {:induction false} WeightLineRecordsAndClears(st: ParseState, line: string)
    requires IsWeightLine(line) && HasPending(st.pending)
    ensures Step(st, line).pending == Idle
    ensures WeightValue(line).Some? ==>
              Step(st, line).results == st.results[st.pending.fp := WeightValue(line).value]
    ensures WeightValue(line).None? ==> Step(st, line).results == st.results
  {
    assert line != "" && !IsRelayLine(line);
  }

  /** Lines the fold ignores: empty lines, lines other than `r`/`w`, and `w` lines with nothing pending. */
  predicate Ignored(st: ParseState, line: string) {
    line == "" || (!IsRelayLine(line) && !(HasPending(st.pending) && IsWeightLine(line)))
  }

  lemma {:induction false} IgnoredLineChangesNothing(st: ParseState, line: string)
    requires Ignored(st, line)
    ensures Step(st, line) == st
  {
  }

  /** Lines that are neither `r` nor `w` lines, and are empty or not: they never touch the state. */
  predicate Inert(line: string) {
    !IsRelayLine(line) && !IsWeightLine(line)
  }

  /** Any run of inert lines (for instance `s` and `v` lines) leaves the pending slot and the results unchanged. */
  lemma {:induction false} InertLinesKeepState(st: ParseState, lines: seq<string>)
    requires forall k :: 0 <= k < |lines| ==> Inert(lines[k])
    ensures Run(st, lines) == st
    decreases |lines|
  {
    if |lines| > 0 {
      assert Step(st, lines[0]) == st;
      InertLinesKeepState(st, lines[1..]);
    }
  }

  /** A relay whose `r` line is the last relevant line of the document gets no entry. */
  lemma {:induction false} RelayAtEndDropped(st: ParseState, lines: seq<string>, r: string, tail: seq<string>)
    requires IsRelayLine(r)
    requires forall k :: 0 <= k < |tail| ==> Inert(tail[k])
    ensures Run(st, lines + [r] + tail).results == Run(st, lines).results
  {
    RunAppend(st, lines + [r], tail);
    RunAppend(st, lines, [r]);
    InertLinesKeepState(Run(st, lines + [r]), tail);
    RelayLineSetsPending(Run(st, lines), r);
  }

  /** One `r` line, any inert lines, one `w` line: the pair records one entry and leaves nothing pending. */
  lemma {:induction false} PairRecords(st: ParseState, r: string, between: seq<string>, w: string, fp: string, bw: int)
    requires IsRelayLine(r) && RelayIdentity(r) == Some(fp) && fp != ""
    requires forall k :: 0 <= k < |between| ==> Inert(between[k])
    requires IsWeightLine(w) && WeightValue(w) == Some(bw)
    ensures Run(st, [r] + between + [w]) == ParseState(Idle, st.results[fp := bw])
  {
    RunAppend(st, [r] + between, [w]);
    RunAppend(st, [r], between);
    var s1 := Step(st, r);
    assert r != "";
    assert s1 == ParseState(Awaiting(fp), st.results);
    assert Run(st, [r]) == s1;
    InertLinesKeepState(s1, between);
    assert w != "" && !IsRelayLine(w);
    assert Run(s1, [w]) == Step(s1, w);
  }

  /** A relay's `r` line followed by two `w` lines: only the first `w` line counts. */
  lemma {:induction false} SecondWeightLineIgnored(st: ParseState, r: string, w1: string, w2: string)
    requires IsRelayLine(r) && IsWeightLine(w1) && IsWeightLine(w2)
    ensures Run(st, [r, w1, w2]) == Run(st, [r, w1])
  {
    assert [r, w1, w2] == [r, w1] + [w2];
    RunAppend(st, [r, w1], [w2]);
    var s := Run(st, [r, w1]);
    assert [r, w1][1..] == [w1] && [w1][1..] == [];
    var s1 := Step(st, r);
    assert Run(st, [r, w1]) == Run(s1, [w1]) == Step(s1, w1);
    assert r != "" && w1 != "" && !IsRelayLine(w1);
    assert !HasPending(s.pending);
    assert w2 != "" && !IsRelayLine(w2);
    assert Run(s, [w2]) == Step(s, w2) == s;
  }

  /** A properly paired relay: its `r` line, its `w` line, and what they carry. */
  datatype Entry = Entry(r: string, w: string, fp: string, bw: int)

  predicate WellPaired(e: Entry) {
    IsRelayLine(e.r) && RelayIdentity(e.r) == Some(e.fp) && e.fp != ""
    && IsWeightLine(e.w) && WeightValue(e.w) == Some(e.bw)
  }

  function Lines(entries: seq<Entry>): seq<string> {
    if |entries| == 0 then [] else [entries[0].r, entries[0].w] + Lines(entries[1..])
  }

  /** The results after the entries' updates, applied in order: a repeated fingerprint keeps its last value. */
  function Recorded(m: map<string, int>, entries: seq<Entry>): map<string, int>
    decreases |entries|
  {
    if |entries| == 0 then m else Recorded(m[entries[0].fp := entries[0].bw], entries[1..])
  }

  /** A document of N paired `r`/`w` groups records exactly their bandwidths. */
  lemma {:induction false} PairedDocument(st: ParseState, entries: seq<Entry>)
    requires forall k :: 0 <= k < |entries| ==> WellPaired(entries[k])
    requires |entries| > 0 || st.pending == Idle
    ensures Run(st, Lines(entries)) == ParseState(if |entries| == 0 then st.pending else Idle, Recorded(st.results, entries))
  {
    EveryPaired(entries);
    PairedRun(st, entries);
  }

  /** Every entry is well paired, stated one entry at a time so that the induction below unfolds it one step at a time. */
  predicate AllPaired(entries: seq<Entry>)
    decreases |entries|
  {
    |entries| == 0 || (WellPaired(entries[0]) && AllPaired(entries[1..]))
  }

  lemma {:induction false} EveryPaired(entries: seq<Entry>)
    requires forall k :: 0 <= k < |entries| ==> WellPaired(entries[k])
    ensures AllPaired(entries)
    decreases |entries|
  {
    if |entries| > 0 {
      var rest := entries[1..];
      assert forall k :: 0 <= k < |rest| ==> rest[k] == entries[k + 1];
      EveryPaired(rest);
    }
  }

  lemma {:induction false} PairedRun(st: ParseState, entries: seq<Entry>)
    requires AllPaired(entries)
    requires |entries| > 0 || st.pending == Idle
    ensures Run(st, Lines(entries)) == ParseState(if |entries| == 0 then st.pending else Idle, Recorded(st.results, entries))
    decreases |entries|
  {
    if |entries| > 0 {
      var e := entries[0];
      FirstPair(st, entries);
      PairedRun(ParseState(Idle, st.results[e.fp := e.bw]), entries[1..]);
    }
  }

  /** The first group of a paired document records its bandwidth; the rest of the document runs from there. */
  lemma {:induction false} FirstPair(st: ParseState, entries: seq<Entry>)
    requires |entries| > 0 && WellPaired(entries[0])
    ensures var e := entries[0];
      Run(st, Lines(entries)) == Run(ParseState(Idle, st.results[e.fp := e.bw]), Lines(entries[1..]))
  {
    var e := entries[0];
    RunAppend(st, [e.r, e.w], Lines(entries[1..]));
    PairOnly(st, e);
  }

  lemma {:induction false} PairOnly(st: ParseState, e: Entry)
    requires WellPaired(e)
    ensures Run(st, [e.r, e.w]) == ParseState(Idle, st.results[e.fp := e.bw])
  {
    PairRecords(st, e.r, [], e.w, e.fp, e.bw);
    assert [e.r] + [] + [e.w] == [e.r, e.w];
  }

  /** With distinct fingerprints, the recorded map has one key per entry, holding its own bandwidth. */
  lemma {:induction false} RecordedDistinct(m: map<string, int>, entries: seq<Entry>)
    requires forall i, j :: 0 <= i < j < |entries| ==> entries[i].fp != entries[j].fp
    ensures Recorded(m, entries).Keys == m.Keys + set k | 0 <= k < |entries| :: entries[k].fp
    ensures forall k :: 0 <= k < |entries| ==> Recorded(m, entries)[entries[k].fp] == entries[k].bw
    decreases |entries|
  {
    if |entries| > 0 {
      var m' := m[entries[0].fp := entries[0].bw];
      RecordedDistinct(m', entries[1..]);
      var rest := set k | 0 <= k < |entries[1..]| :: entries[1..][k].fp;
      var all := set k | 0 <= k < |entries| :: entries[k].fp;
      assert all == {entries[0].fp} + rest by {
        forall x | x in all ensures x in {entries[0].fp} + rest {
          var k :| 0 <= k < |entries| && entries[k].fp == x;
          if k > 0 { assert entries[1..][k - 1].fp == x; }
        }
      }
      forall k | 0 <= k < |entries| ensures Recorded(m, entries)[entries[k].fp] == entries[k].bw {
        if k == 0 {
          RecordedKeepsOthers(m', entries[1..], entries[0].fp);
        } else {
          assert entries[1..][k - 1] == entries[k];
        }
      }
    }
  }

  /** A fingerprint no entry names keeps its old value. */
  lemma {:induction false} RecordedKeepsOthers(m: map<string, int>, entries: seq<Entry>, fp: string)
    requires fp in m
    requires forall k :: 0 <= k < |entries| ==> entries[k].fp != fp
    ensures fp in Recorded(m, entries) && Recorded(m, entries)[fp] == m[fp]
    decreases |entries|
  {
    if |entries| > 0 {
      assert entries[0].fp != fp;
      RecordedKeepsOthers(m[entries[0].fp := entries[0].bw], entries[1..], fp);
    }
  }

  /** Every key the parser records, and every pending fingerprint, is upper-case hex text. */
  predicate Wellformed(st: ParseState) {
    (forall fp :: fp in st.results ==> IsFingerprintText(fp))
    && (st.pending.Awaiting? ==> IsFingerprintText(st.pending.fp))
  }

  lemma {:induction false} StepKeepsWellformed(st: ParseState, line: string)
    requires Wellformed(st)
    ensures Wellformed(Step(st, line))
  {
    if line != "" && IsRelayLine(line) {
      var parts := Split(line);
      if |parts| >= 3 && B64ToHex(parts[2]).Some? {
        B64ToHexShape(parts[2]);
      }
    }
  }

  lemma {:induction false} RunKeepsWellformed(st: ParseState, lines: seq<string>)
    requires Wellformed(st)
    ensures Wellformed(Run(st, lines))
    decreases |lines|
  {
    if |lines| > 0 {
      StepKeepsWellformed(st, lines[0]);
      RunKeepsWellformed(Step(st, lines[0]), lines[1..]);
    }
  }

  /** The keys of a parsed day mapping are upper-case hex fingerprints. */
  lemma {:induction false} ParsedKeysAreFingerprints(text: string)
    ensures forall fp :: fp in Parse(text) ==> IsFingerprintText(fp)
  {
    RunKeepsWellformed(Start, SplitLines(text));
  }
}
