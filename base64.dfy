/**
  Relay identities on consensus `r` lines: base64 as defined in section 4 of
  RFC 4648 (the standard alphabet, '=' padding), turned into the upper-case
  hexadecimal fingerprint that names a relay everywhere else.
 */
module Base64 {
  import opened Wrappers

  type Byte = b: int | 0 <= b < 256

  /** The RFC 4648 alphabet: A-Z, a-z, 0-9, '+', '/'. */
  function Letter(i: int): (c: char)
    requires 0 <= i < 64
    ensures c != '='
  {
    if i < 26 then ('A' as int + i) as char
    else if i < 52 then ('a' as int + i - 26) as char
    else if i < 62 then ('0' as int + i - 52) as char
    else if i == 62 then '+'
    else '/'
  }

  /** The value of an alphabet character; None for '=' and every character outside the alphabet. */
  function LetterValue(c: char): (r: Option<int>)
    ensures r.Some? ==> 0 <= r.value < 64 && Letter(r.value) == c
  {
    if 'A' <= c <= 'Z' then Some(c as int - 'A' as int)
    else if 'a' <= c <= 'z' then Some(c as int - 'a' as int + 26)
    else if '0' <= c <= '9' then Some(c as int - '0' as int + 52)
    else if c == '+' then Some(62)
    else if c == '/' then Some(63)
    else None
  }

  lemma {:induction false} LetterRoundTrip(i: int)
    requires 0 <= i < 64
    ensures LetterValue(Letter(i)) == Some(i)
  {
  }

  /** Number of '=' characters the encoding of n bytes ends with. */
  function PadCount(n: nat): nat {
    (3 - n % 3) % 3
  }

  function EncodeTriple(a: Byte, b: Byte, c: Byte): string {
    [Letter(a / 4), Letter(a % 4 * 16 + b / 16), Letter(b % 16 * 4 + c / 64), Letter(c % 64)]
  }

  /** The last group, for the one or two bytes left over: "==" or "=" padding. */
  function EncodeTail(b: seq<Byte>): (s: string)
    requires |b| < 3
    ensures |s| == if |b| == 0 then 0 else 4
  {
    if |b| == 0 then ""
    else if |b| == 1 then [Letter(b[0] / 4), Letter(b[0] % 4 * 16), '=', '=']
    else [Letter(b[0] / 4), Letter(b[0] % 4 * 16 + b[1] / 16), Letter(b[1] % 16 * 4), '=']
  }

  /** The padded base64 encoding of a byte string. */
  function Encode(b: seq<Byte>): string
    decreases |b|
  {
    if |b| < 3 then EncodeTail(b)
    else EncodeTriple(b[0], b[1], b[2]) + Encode(b[3..])
  }

  /** The encoding with its trailing '=' removed, as consensus documents print identities. */
  function Unpadded(b: seq<Byte>): string {
    var e := Encode(b);
    if |e| >= PadCount(|b|) then e[..|e| - PadCount(|b|)] else e
  }

  function DecodeQuad(v0: int, v1: int, v2: int, v3: int): seq<Byte>
    requires 0 <= v0 < 64 && 0 <= v1 < 64 && 0 <= v2 < 64 && 0 <= v3 < 64
  {
    [v0 * 4 + v1 / 16, v1 % 16 * 16 + v2 / 4, v2 % 4 * 64 + v3]
  }

  /**
    One group of four characters. Only the last group may end in "=" or "==";
    the bits a padded group leaves over are ignored, as Python's decoder does.
   */
  function DecodeGroup(g: string, last: bool): Option<seq<Byte>>
    requires |g| == 4
  {
    var v0, v1 := LetterValue(g[0]), LetterValue(g[1]);
    if v0.None? || v1.None? then None
    else if last && g[2] == '=' && g[3] == '=' then
      Some([v0.value * 4 + v1.value / 16])
    else
      var v2 := LetterValue(g[2]);
      if v2.None? then None
      else if last && g[3] == '=' then
        Some([v0.value * 4 + v1.value / 16, v1.value % 16 * 16 + v2.value / 4])
      else
        var v3 := LetterValue(g[3]);
        if v3.None? then None
        else Some(DecodeQuad(v0.value, v1.value, v2.value, v3.value))
  }

  /** Strict RFC 4648 decoding: None for a length that is not a multiple of 4, a character outside the alphabet, or misplaced padding. */
  function Decode(s: string): Option<seq<Byte>>
    decreases |s|
  {
    if |s| == 0 then Some([])
    else if |s| < 4 then None
    else match DecodeGroup(s[..4], |s| == 4)
      case None => None
      case Some(g) =>
        if |s| == 4 then Some(g)
        else match Decode(s[4..])
          case None => None
          case Some(rest) => Some(g + rest)
  }

  predicate IsUpperHexDigit(c: char) {
    '0' <= c <= '9' || 'A' <= c <= 'F'
  }

  function HexDigit(n: int): (c: char)
    requires 0 <= n < 16
    ensures IsUpperHexDigit(c)
  {
    if n < 10 then ('0' as int + n) as char else ('A' as int + n - 10) as char
  }

  /** `bytes.hex().upper()`: two upper-case hex digits per byte. */
  function Hex(b: seq<Byte>): (s: string)
    ensures |s| == 2 * |b|
    ensures forall i :: 0 <= i < |s| ==> IsUpperHexDigit(s[i])
  {
    if |b| == 0 then "" else [HexDigit(b[0] / 16), HexDigit(b[0] % 16)] + Hex(b[1..])
  }

  function HexValue(c: char): (r: Option<int>)
    ensures r.Some? ==> 0 <= r.value < 16
  {
    if '0' <= c <= '9' then Some(c as int - '0' as int)
    else if 'A' <= c <= 'F' then Some(c as int - 'A' as int + 10)
    else if 'a' <= c <= 'f' then Some(c as int - 'a' as int + 10)
    else None
  }

  /** `bytes.fromhex` over pairs of hex digits of either case. */
  function Unhex(s: string): Option<seq<Byte>>
    decreases |s|
  {
    if |s| == 0 then Some([])
    else if |s| == 1 then None
    else
      var hi, lo := HexValue(s[0]), HexValue(s[1]);
      if hi.None? || lo.None? then None
      else match Unhex(s[2..])
        case None => None
        case Some(rest) => Some([hi.value * 16 + lo.value] + rest)
  }

  /** The '=' characters `b64_to_hex` appends: `'=' * (-len % 4)`. */
  function Padding(n: nat): (p: string)
    ensures |p| < 4 && (n + |p|) % 4 == 0
    ensures forall i :: 0 <= i < |p| ==> p[i] == '='
  {
    seq((-(n as int)) % 4, _ => '=')
  }

  /** `b64_to_hex`: pad, decode, hex-encode; None where Python raises. */
  function B64ToHex(id: string): Option<string> {
    match Decode(id + Padding(|id|))
    case None => None
    case Some(raw) => Some(Hex(raw))
  }

  predicate IsFingerprintText(s: string) {
    |s| % 2 == 0 && forall i :: 0 <= i < |s| ==> IsUpperHexDigit(s[i])
  }

  // ---------------------------------------------------------------------------
  // Properties

  /** Every decoded fingerprint is upper-case hex; only the empty identity gives the empty one. */
  lemma {:induction false} B64ToHexShape(id: string)
    requires B64ToHex(id).Some?
    ensures IsFingerprintText(B64ToHex(id).value)
    ensures |id| > 0 ==> |B64ToHex(id).value| > 0
  {
    var s := id + Padding(|id|);
    var raw := Decode(s).value;
    assert B64ToHex(id) == Some(Hex(raw));
    HexIsFingerprintText(raw);
    if |id| > 0 {
      assert |s| > 0;
      DecodeNonEmpty(s);
    }
  }

  lemma {:induction false} HexIsFingerprintText(b: seq<Byte>)
    ensures IsFingerprintText(Hex(b))
  {
    var h := Hex(b);
    assert |h| == 2 * |b|;
  }

  lemma {:induction false} DecodeNonEmpty(s: string)
    requires |s| > 0 && Decode(s).Some?
    ensures |Decode(s).value| > 0
  {
    assert |s| >= 4;
  }

  lemma {:induction false} TripleRoundTrip(a: Byte, b: Byte, c: Byte)
    ensures DecodeQuad(a / 4, a % 4 * 16 + b / 16, b % 16 * 4 + c / 64, c % 64) == [a, b, c]
  {
    assert (a % 4 * 16 + b / 16) / 16 == a % 4;
    assert (a % 4 * 16 + b / 16) % 16 == b / 16;
    assert (b % 16 * 4 + c / 64) / 4 == b % 16;
    assert (b % 16 * 4 + c / 64) % 4 == c / 64;
  }

  lemma {:induction false} DecodeTriple(a: Byte, b: Byte, c: Byte, last: bool)
    ensures DecodeGroup(EncodeTriple(a, b, c), last) == Some([a, b, c])
  {
    var t := EncodeTriple(a, b, c);
    LetterRoundTrip(a / 4);
    LetterRoundTrip(a % 4 * 16 + b / 16);
    LetterRoundTrip(b % 16 * 4 + c / 64);
    LetterRoundTrip(c % 64);
    assert t[2] != '=' && t[3] != '=';
    TripleRoundTrip(a, b, c);
  }

  lemma {:induction false} DecodePair(a: Byte, b: Byte)
    ensures DecodeGroup(EncodeTail([a, b]), true) == Some([a, b])
  {
    var e := EncodeTail([a, b]);
    assert e == [Letter(a / 4), Letter(a % 4 * 16 + b / 16), Letter(b % 16 * 4), '='];
    LetterRoundTrip(a / 4);
    LetterRoundTrip(a % 4 * 16 + b / 16);
    LetterRoundTrip(b % 16 * 4);
    assert e[2] != '=';
    assert (a % 4 * 16 + b / 16) / 16 == a % 4;
    assert (a % 4 * 16 + b / 16) % 16 == b / 16;
    assert (b % 16 * 4) / 4 == b % 16;
  }

  lemma {:induction false} DecodeSingle(a: Byte)
    ensures DecodeGroup(EncodeTail([a]), true) == Some([a])
  {
    LetterRoundTrip(a / 4);
    LetterRoundTrip(a % 4 * 16);
    assert (a % 4 * 16) / 16 == a % 4;
  }

  lemma {:induction false} EncodeLength(b: seq<Byte>)
    ensures |Encode(b)| % 4 == 0
    ensures |b| > 0 <==> |Encode(b)| > 0
    decreases |b|
  {
    if |b| >= 3 {
      EncodeLength(b[3..]);
      EncodeStep(b);
      FourMore(|Encode(b[3..])|, |Encode(b)|);
    } else {
      EncodeLengthTail(b);
    }
  }

  lemma {:induction false} FourMore(x: int, y: int)
    requires x % 4 == 0 && y == 4 + x
    ensures y % 4 == 0
  {
  }

  lemma {:induction false} EncodeStep(b: seq<Byte>)
    requires |b| >= 3
    ensures |Encode(b)| == 4 + |Encode(b[3..])|
  {
    assert Encode(b) == EncodeTriple(b[0], b[1], b[2]) + Encode(b[3..]);
  }

  lemma {:induction false} EncodeLengthTail(b: seq<Byte>)
    requires |b| < 3
    ensures |Encode(b)| % 4 == 0
    ensures |b| > 0 <==> |Encode(b)| > 0
  {
    assert Encode(b) == EncodeTail(b);
  }

  lemma {:induction false} EncodeShape(b: seq<Byte>)
    ensures |Encode(b)| % 4 == 0
    ensures PadCount(|b|) <= |Encode(b)|
    ensures forall i :: 0 <= i < |Encode(b)| - PadCount(|b|) ==> Encode(b)[i] != '='
    ensures forall i :: |Encode(b)| - PadCount(|b|) <= i < |Encode(b)| ==> Encode(b)[i] == '='
    decreases |b|
  {
    EncodeLength(b);
    if |b| >= 3 {
      EncodeShape(b[3..]);
      var t := EncodeTriple(b[0], b[1], b[2]);
      var e := Encode(b[3..]);
      var whole := Encode(b);
      assert whole == t + e;
      assert PadCount(|b|) == PadCount(|b| - 3);
      forall i | 0 <= i < |whole| - PadCount(|b|) ensures whole[i] != '=' {
        if i >= 4 { assert whole[i] == e[i - 4]; }
      }
      forall i | |whole| - PadCount(|b|) <= i < |whole| ensures whole[i] == '=' {
        assert whole[i] == e[i - 4];
      }
    } else {
      var whole := EncodeTail(b);
      assert Encode(b) == whole;
    }
  }

  /** Decoding undoes encoding, for every byte string. */
  lemma {:induction false} DecodeCons(g: string, rest: string, bs: seq<Byte>, rs: seq<Byte>)
    requires |g| == 4 && |rest| > 0
    requires DecodeGroup(g, false) == Some(bs) && Decode(rest) == Some(rs)
    ensures Decode(g + rest) == Some(bs + rs)
  {
    assert (g + rest)[..4] == g;
    assert (g + rest)[4..] == rest;
  }

  lemma {:induction false} DecodeLast(g: string, bs: seq<Byte>)
    requires |g| == 4 && DecodeGroup(g, true) == Some(bs)
    ensures Decode(g) == Some(bs)
  {
    assert g[..4] == g;
  }

  lemma {:induction false} DecodeEncodeTail(b: seq<Byte>)
    requires |b| < 3
    ensures Decode(Encode(b)) == Some(b)
  {
    if |b| == 1 {
      DecodeSingle(b[0]);
      assert b == [b[0]];
      DecodeLast(EncodeTail(b), b);
    } else if |b| == 2 {
      DecodePair(b[0], b[1]);
      assert b == [b[0], b[1]];
      DecodeLast(EncodeTail(b), b);
    }
  }

  lemma {:induction false} DecodeTripleThen(a: Byte, b: Byte, c: Byte, e: string, rest: seq<Byte>)
    requires Decode(e) == Some(rest)
    requires |e| % 4 == 0
    ensures Decode(EncodeTriple(a, b, c) + e) == Some([a, b, c] + rest)
  {
    var t := EncodeTriple(a, b, c);
    if |e| > 0 {
      DecodeTriple(a, b, c, false);
      DecodeCons(t, e, [a, b, c], rest);
    } else {
      DecodeTriple(a, b, c, true);
      assert e == "" && rest == [];
      assert t + e == t;
      assert [a, b, c] + rest == [a, b, c];
      DecodeLast(t, [a, b, c]);
    }
  }

  lemma {:induction false} DecodeEncode(b: seq<Byte>)
    ensures Decode(Encode(b)) == Some(b)
    decreases |b|
  {
    if |b| < 3 {
      DecodeEncodeTail(b);
    } else {
      var tail := b[3..];
      var e := Encode(tail);
      assert Encode(b) == EncodeTriple(b[0], b[1], b[2]) + e;
      DecodeEncode(tail);
      EncodeLength(tail);
      DecodeTripleThen(b[0], b[1], b[2], e, tail);
      SplitThree(b);
    }
  }

  lemma {:induction false} SplitThree(b: seq<Byte>)
    requires |b| >= 3
    ensures b == [b[0], b[1], b[2]] + b[3..]
  {
    assert b == b[..3] + b[3..];
    assert b[..3] == [b[0], b[1], b[2]];
  }

  lemma {:induction false} HexRoundTrip(b: seq<Byte>)
    ensures Unhex(Hex(b)) == Some(b)
  {
    if |b| > 0 {
      HexRoundTrip(b[1..]);
      var h := Hex(b);
      assert h[2..] == Hex(b[1..]);
      assert HexValue(h[0]) == Some(b[0] / 16);
      assert HexValue(h[1]) == Some(b[0] % 16);
      assert b == [b[0]] + b[1..];
    }
  }

  /** Removing the padding and letting `b64_to_hex` add it back restores the padded text. */
  lemma {:induction false} RepadUnpadded(b: seq<Byte>)
    ensures Unpadded(b) + Padding(|Unpadded(b)|) == Encode(b)
  {
    var e := Encode(b);
    EncodeShape(b);
    assert Unpadded(b) == e[..|e| - PadCount(|b|)];
    Repad(e, PadCount(|b|));
  }

  lemma {:induction false} Repad(e: string, p: nat)
    requires |e| % 4 == 0 && p < 4 && p <= |e|
    requires forall i :: |e| - p <= i < |e| ==> e[i] == '='
    ensures e[..|e| - p] + Padding(|e| - p) == e
  {
    var u := e[..|e| - p];
    var q := Padding(|u|);
    assert |q| == p;
    forall i | 0 <= i < |e| ensures (u + q)[i] == e[i] {
      if i >= |u| {
        assert (u + q)[i] == q[i - |u|];
      }
    }
  }

  lemma {:induction false} B64ToHexOf(id: string, raw: seq<Byte>)
    requires Decode(id + Padding(|id|)) == Some(raw)
    ensures B64ToHex(id) == Some(Hex(raw))
  {
  }

  lemma {:induction false} PaddedIdentity(id: seq<Byte>)
    ensures B64ToHex(Encode(id)) == Some(Hex(id))
  {
    DecodeEncode(id);
    EncodeLength(id);
    var e := Encode(id);
    PaddingOfWhole(|e|);
    assert e + Padding(|e|) == e;
    B64ToHexOf(e, id);
  }

  /** Text already a whole number of groups gets no padding. */
  lemma {:induction false} PaddingOfWhole(n: nat)
    requires n % 4 == 0
    ensures Padding(n) == []
  {
    var k := n / 4;
    assert -(n as int) == 4 * (-k);
    assert (4 * (-k)) % 4 == 0;
  }

  lemma {:induction false} UnpaddedIdentity(id: seq<Byte>)
    ensures B64ToHex(Unpadded(id)) == Some(Hex(id))
  {
    DecodeEncode(id);
    RepadUnpadded(id);
    B64ToHexOf(Unpadded(id), id);
  }

  /**
    The fingerprint of a relay: for any identity, padded or with its '='
    stripped, `b64_to_hex` yields the upper-case hex of the identity's bytes,
    and hex-decoding that gives the bytes back. A 20-byte identity yields a
    40-character fingerprint.
   */
  lemma {:induction false} FingerprintRoundTrip(id: seq<Byte>)
    ensures B64ToHex(Encode(id)) == Some(Hex(id))
    ensures B64ToHex(Unpadded(id)) == Some(Hex(id))
    ensures Unhex(Hex(id)) == Some(id)
    ensures |id| == 20 ==> |Hex(id)| == 40 && IsFingerprintText(Hex(id))
  {
    PaddedIdentity(id);
    UnpaddedIdentity(id);
    HexRoundTrip(id);
  }
}
