/**
  The few Python `str` operations the scripts rely on, written out over
  `seq<char>`: `str.split()` on whitespace, `str.split(sep)`, `str.splitlines()`,
  `str.strip()`, `startswith`/`endswith`, `str(int)` and `int(str)` in base 10.
 */
module PyStr {
  import opened Wrappers

  /** Python's `str.isspace` set of code points (what `split()` and `strip()` use). */
  predicate IsSpace(c: char) {
    var n := c as int;
    n == 32 || 9 <= n <= 13 || 28 <= n <= 31 || n == 0x85 || n == 0xA0 || n == 0x1680
    || 0x2000 <= n <= 0x200A || n == 0x2028 || n == 0x2029 || n == 0x202F || n == 0x205F
    || n == 0x3000
  }

  /** The code points at which `str.splitlines()` ends a line. */
  predicate IsLineBreak(c: char) {
    var n := c as int;
    10 <= n <= 13 || 28 <= n <= 30 || n == 0x85 || n == 0x2028 || n == 0x2029
  }

  predicate StartsWith(s: string, prefix: string) {
    |prefix| <= |s| && s[..|prefix|] == prefix
  }

  predicate EndsWith(s: string, suffix: string) {
    |suffix| <= |s| && s[|s| - |suffix|..] == suffix
  }

  /** Length of the leading run of non-whitespace characters. */
  function TokenLength(s: string): (n: nat)
    ensures n <= |s|
    ensures forall i :: 0 <= i < n ==> !IsSpace(s[i])
    ensures n < |s| ==> IsSpace(s[n])
  {
    if |s| == 0 || IsSpace(s[0]) then 0 else 1 + TokenLength(s[1..])
  }

  /** `s.split()`: the maximal runs of non-whitespace characters, in order. */
  function Split(s: string): (tokens: seq<string>)
    ensures forall k :: 0 <= k < |tokens| ==> |tokens[k]| > 0
    ensures forall k, i :: 0 <= k < |tokens| && 0 <= i < |tokens[k]| ==> !IsSpace(tokens[k][i])
    decreases |s|
  {
    if |s| == 0 then []
    else if IsSpace(s[0]) then Split(s[1..])
    else
      var n := TokenLength(s);
      [s[..n]] + Split(s[n..])
  }

  /** Index of the first line-break character, or |s| if there is none. */
  function LineEnd(s: string): (n: nat)
    ensures n <= |s|
    ensures forall i :: 0 <= i < n ==> !IsLineBreak(s[i])
    ensures n < |s| ==> IsLineBreak(s[n])
  {
    if |s| == 0 || IsLineBreak(s[0]) then 0 else 1 + LineEnd(s[1..])
  }

  /** `s.splitlines()`: "\r\n" ends one line; a final line break adds no empty line. */
  function SplitLines(s: string): (lines: seq<string>)
    ensures forall k, i :: 0 <= k < |lines| && 0 <= i < |lines[k]| ==> !IsLineBreak(lines[k][i])
    decreases |s|
  {
    if |s| == 0 then []
    else
      var n := LineEnd(s);
      var rest :=
        if n == |s| then []
        else if s[n] == '\r' && n + 1 < |s| && s[n + 1] == '\n' then s[n + 2..]
        else s[n + 1..];
      [s[..n]] + SplitLines(rest)
  }

  /** Index of the first occurrence of `c`, if any. */
  function IndexOf(s: string, c: char): (r: Option<nat>)
    ensures r.Some? ==> r.value < |s| && s[r.value] == c
    ensures r.Some? ==> forall i :: 0 <= i < r.value ==> s[i] != c
    ensures r.None? ==> forall i :: 0 <= i < |s| ==> s[i] != c
  {
    if |s| == 0 then None
    else if s[0] == c then Some(0)
    else match IndexOf(s[1..], c)
      case None => None
      case Some(i) => Some(i + 1)
  }

  /** `s.split(sep)` for a one-character separator: empty pieces are kept. */
  function SplitOn(s: string, sep: char): (pieces: seq<string>)
    ensures |pieces| >= 1
    ensures forall k, i :: 0 <= k < |pieces| && 0 <= i < |pieces[k]| ==> pieces[k][i] != sep
    decreases |s|
  {
    match IndexOf(s, sep)
    case None => [s]
    case Some(i) => [s[..i]] + SplitOn(s[i + 1..], sep)
  }

  /** Joining the pieces with the separator gives back the string. */
  function Join(pieces: seq<string>, sep: char): string
    requires |pieces| >= 1
  {
    if |pieces| == 1 then pieces[0] else pieces[0] + [sep] + Join(pieces[1..], sep)
  }

  lemma {:induction false} SplitOnJoin(s: string, sep: char)
    ensures Join(SplitOn(s, sep), sep) == s
    decreases |s|
  {
    match IndexOf(s, sep)
    case None =>
    case Some(i) =>
      var rest := SplitOn(s[i + 1..], sep);
      SplitOnJoin(s[i + 1..], sep);
      var pieces := [s[..i]] + rest;
      assert SplitOn(s, sep) == pieces;
      assert pieces[1..] == rest;
      assert Join(pieces, sep) == s[..i] + [sep] + Join(rest, sep);
      assert s == s[..i] + [sep] + s[i + 1..];
  }

  /** Joining pieces that do not contain the separator and splitting again gives the pieces back. */
  lemma {:induction false} JoinSplitOn(pieces: seq<string>, sep: char)
    requires |pieces| >= 1
    requires forall k, i :: 0 <= k < |pieces| && 0 <= i < |pieces[k]| ==> pieces[k][i] != sep
    ensures SplitOn(Join(pieces, sep), sep) == pieces
    decreases |pieces|
  {
    var head := pieces[0];
    assert forall i :: 0 <= i < |head| ==> head[i] != sep;
    if |pieces| > 1 {
      var rest := Join(pieces[1..], sep);
      var s := head + [sep] + rest;
      assert s[|head|] == sep;
      assert forall i :: 0 <= i < |head| ==> s[i] == head[i];
      assert IndexOf(s, sep) == Some(|head|);
      assert s[..|head|] == head;
      assert s[|head| + 1..] == rest;
      JoinSplitOn(pieces[1..], sep);
    }
  }

  /** A token of `str.split()`: non-empty and free of whitespace. */
  predicate IsToken(t: string) {
    |t| > 0 && forall i :: 0 <= i < |t| ==> !IsSpace(t[i])
  }

  /** A token followed by whitespace or by nothing is one leading run. */
  lemma {:induction false} TokenLengthOf(t: string, rest: string)
    requires IsToken(t)
    requires |rest| > 0 ==> IsSpace(rest[0])
    ensures TokenLength(t + rest) == |t|
  {
    var s := t + rest;
    assert forall i :: 0 <= i < |t| ==> s[i] == t[i];
    assert |rest| > 0 ==> s[|t|] == rest[0];
  }

  /** `" ".join(tokens).split() == tokens` for non-empty, whitespace-free tokens. */
  lemma {:induction false} SplitJoin(tokens: seq<string>)
    requires |tokens| >= 1
    requires forall k :: 0 <= k < |tokens| ==> IsToken(tokens[k])
    ensures Split(Join(tokens, ' ')) == tokens
    decreases |tokens|
  {
    var t := tokens[0];
    assert IsToken(t);
    if |tokens| == 1 {
      TokenLengthOf(t, []);
      assert t + [] == t;
      assert t[|t|..] == [];
    } else {
      var rest := Join(tokens[1..], ' ');
      var s := t + [' '] + rest;
      TokenLengthOf(t, [' '] + rest);
      assert s == t + ([' '] + rest);
      assert s[..|t|] == t;
      assert s[|t|..] == [' '] + rest;
      assert s[|t|..][1..] == rest;
      SplitJoin(tokens[1..]);
      assert tokens == [t] + tokens[1..];
    }
  }

  /** `s.split()` is empty exactly when `s` is whitespace only. */
  lemma {:induction false} SplitEmpty(s: string)
    ensures Split(s) == [] <==> forall i :: 0 <= i < |s| ==> IsSpace(s[i])
    decreases |s|
  {
    if |s| > 0 && IsSpace(s[0]) {
      SplitEmpty(s[1..]);
      assert forall i :: 0 < i < |s| ==> s[i] == s[1..][i - 1];
      assert forall j :: 0 <= j < |s[1..]| ==> s[1..][j] == s[j + 1];
    }
  }

  /** The text of lines each ended by "\n", as a file whose last line is terminated holds them. */
  function Terminated(lines: seq<string>): string {
    if |lines| == 0 then [] else lines[0] + "\n" + Terminated(lines[1..])
  }

  /** A line without breaks followed by "\n" ends at that "\n". */
  lemma {:induction false} LineEndOf(l: string, rest: string)
    requires forall i :: 0 <= i < |l| ==> !IsLineBreak(l[i])
    ensures LineEnd(l + "\n" + rest) == |l|
  {
    var s := l + "\n" + rest;
    assert forall i :: 0 <= i < |l| ==> s[i] == l[i];
    assert IsLineBreak(s[|l|]);
  }

  /** `splitlines()` of "\n"-terminated lines without breaks gives back the lines. */
  lemma {:induction false} SplitLinesTerminated(lines: seq<string>)
    requires forall k, i :: 0 <= k < |lines| && 0 <= i < |lines[k]| ==> !IsLineBreak(lines[k][i])
    ensures SplitLines(Terminated(lines)) == lines
    decreases |lines|
  {
    if |lines| > 0 {
      var l, rest := lines[0], Terminated(lines[1..]);
      var s := l + "\n" + rest;
      assert forall i :: 0 <= i < |l| ==> !IsLineBreak(l[i]);
      LineEndOf(l, rest);
      assert s[|l|] == '\n';
      assert s[..|l|] == l;
      assert s[|l| + 1..] == rest;
      SplitLinesTerminated(lines[1..]);
      assert lines == [l] + lines[1..];
    }
  }

  function StripLeft(s: string): (t: string)
    ensures |t| <= |s| && t == s[|s| - |t|..]
    ensures |t| > 0 ==> !IsSpace(t[0])
  {
    if |s| > 0 && IsSpace(s[0]) then StripLeft(s[1..]) else s
  }

  function StripRight(s: string): (t: string)
    ensures |t| <= |s| && t == s[..|t|]
    ensures |t| > 0 ==> !IsSpace(t[|t| - 1])
  {
    if |s| > 0 && IsSpace(s[|s| - 1]) then StripRight(s[..|s| - 1]) else s
  }

  /** `s.strip()`. */
  function Strip(s: string): string {
    StripRight(StripLeft(s))
  }

  predicate IsDigit(c: char) { '0' <= c <= '9' }

  function DigitChar(d: nat): char
    requires d < 10
  {
    ('0' as int + d) as char
  }

  /** Value of a run of decimal digits, read left to right. */
  function DigitsValue(s: string): nat
    requires forall i :: 0 <= i < |s| ==> IsDigit(s[i])
  {
    if |s| == 0 then 0
    else
      assert IsDigit(s[|s| - 1]);
      DigitsValue(s[..|s| - 1]) * 10 + (s[|s| - 1] as int - '0' as int)
  }

  /** `str(n)` for a non-negative integer: decimal digits, no leading zero. */
  function NatDecimal(n: nat): (s: string)
    ensures |s| > 0 && forall i :: 0 <= i < |s| ==> IsDigit(s[i])
  {
    if n < 10 then [DigitChar(n)] else NatDecimal(n / 10) + [DigitChar(n % 10)]
  }

  /** `str(n)`: a leading '-' for negative numbers. */
  function Decimal(n: int): string {
    if n < 0 then "-" + NatDecimal(-n) else NatDecimal(n)
  }

  /**
    The digit body `int()` accepts in base 10: digits, with single underscores
    allowed between two digits ("1_000"), nothing else.
   */
  predicate IsDigitBody(s: string) {
    && |s| > 0
    && IsDigit(s[0]) && IsDigit(s[|s| - 1])
    && (forall i :: 0 <= i < |s| ==> IsDigit(s[i]) || s[i] == '_')
    && (forall i :: 0 <= i < |s| - 1 ==> !(s[i] == '_' && s[i + 1] == '_'))
  }

  function DropUnderscores(s: string): (t: string)
    ensures forall i :: 0 <= i < |t| ==> t[i] != '_'
    ensures (forall i :: 0 <= i < |s| ==> IsDigit(s[i]) || s[i] == '_') ==>
              forall i :: 0 <= i < |t| ==> IsDigit(t[i])
  {
    if |s| == 0 then []
    else if s[|s| - 1] == '_' then DropUnderscores(s[..|s| - 1])
    else DropUnderscores(s[..|s| - 1]) + [s[|s| - 1]]
  }

  function ParseUnsigned(s: string): (r: Option<nat>)
    ensures r.Some? ==> IsDigitBody(s)
  {
    if IsDigitBody(s) then Some(DigitsValue(DropUnderscores(s))) else None
  }

  /**
    `int(s)` in base 10: surrounding whitespace is ignored, one optional sign,
    then a digit body; anything else raises (None here).
   */
  function ParseInt(s: string): Option<int> {
    var t := Strip(s);
    if |t| > 0 && (t[0] == '+' || t[0] == '-') then
      match ParseUnsigned(t[1..])
      case None => None
      case Some(m) =>
        var v: int := if t[0] == '-' then -(m as int) else m;
        Some(v)
    else
      match ParseUnsigned(t)
      case None => None
      case Some(m) => Some(m)
  }

  lemma {:induction false} NatDecimalValue(n: nat)
    ensures DigitsValue(NatDecimal(n)) == n
  {
    if n >= 10 {
      NatDecimalValue(n / 10);
      var s := NatDecimal(n);
      assert s[..|s| - 1] == NatDecimal(n / 10);
    }
  }

  lemma {:induction false} NoUnderscoresUnchanged(s: string)
    requires forall i :: 0 <= i < |s| ==> s[i] != '_'
    ensures DropUnderscores(s) == s
  {
    if |s| > 0 {
      NoUnderscoresUnchanged(s[..|s| - 1]);
    }
  }

  lemma {:induction false} DropUnderscoresAppend(x: string, y: string)
    ensures DropUnderscores(x + y) == DropUnderscores(x) + DropUnderscores(y)
    decreases |y|
  {
    if |y| == 0 {
      assert x + y == x;
    } else {
      var z := x + y;
      assert z[..|z| - 1] == x + y[..|y| - 1];
      DropUnderscoresAppend(x, y[..|y| - 1]);
    }
  }

  lemma {:induction false} NoSpaceStripped(s: string)
    requires forall i :: 0 <= i < |s| ==> !IsSpace(s[i])
    ensures Strip(s) == s
  {
    if |s| > 0 {
      assert StripLeft(s) == s;
      assert StripRight(s) == s;
    }
  }

  lemma {:induction false} DigitsAreNotSpace(s: string)
    requires forall i :: 0 <= i < |s| ==> IsDigit(s[i])
    ensures forall i :: 0 <= i < |s| ==> !IsSpace(s[i])
  {
    forall i | 0 <= i < |s| ensures !IsSpace(s[i]) {
      assert IsDigit(s[i]);
      assert 48 <= s[i] as int <= 57;
    }
  }

  lemma {:induction false} ParseUnsignedDecimal(m: nat)
    ensures ParseUnsigned(NatDecimal(m)) == Some(m)
  {
    var body := NatDecimal(m);
    NatDecimalValue(m);
    NoUnderscoresUnchanged(body);
    assert IsDigitBody(body);
  }

  lemma {:induction false} ParseIntUnsigned(s: string, m: nat)
    requires forall i :: 0 <= i < |s| ==> !IsSpace(s[i])
    requires |s| > 0 && IsDigit(s[0])
    requires ParseUnsigned(s) == Some(m)
    ensures ParseInt(s) == Some(m)
  {
    NoSpaceStripped(s);
  }

  lemma {:induction false} ParseIntNegative(s: string, m: nat)
    requires forall i :: 0 <= i < |s| ==> !IsSpace(s[i])
    requires |s| > 1 && s[0] == '-'
    requires ParseUnsigned(s[1..]) == Some(m)
    ensures ParseInt(s) == Some(-(m as int))
  {
    NoSpaceStripped(s);
  }

  /** `int(str(n)) == n`: the CSV writer's integers read back unchanged. */
  lemma {:induction false} DecimalRoundTrip(n: int)
    ensures ParseInt(Decimal(n)) == Some(n)
  {
    var m: nat := if n < 0 then -n else n;
    var body := NatDecimal(m);
    ParseUnsignedDecimal(m);
    DigitsAreNotSpace(body);
    var s := Decimal(n);
    if n < 0 {
      assert s == "-" + body;
      forall i | 0 <= i < |s| ensures !IsSpace(s[i]) {
        if i > 0 { assert s[i] == body[i - 1]; }
      }
      assert s[1..] == body;
      ParseIntNegative(s, m);
    } else {
      ParseIntUnsigned(s, m);
    }
  }
}
