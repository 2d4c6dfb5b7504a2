/** Base64 with padding (section 4 of RFC 4648) over byte strings, decoding as leniently as Go's
    StdEncoding: carriage returns and line feeds are skipped, unused trailing bits are ignored. */
module Base64 {
  import opened Wrappers
  import opened Text

  type Bytes = seq<byte>

  type sextet = x: int | 0 <= x < 64

  const PAD: byte := 61
  const CR: byte := 13
  const LF: byte := 10

  /** A-Z, a-z, 0-9, + and / */
  function Symbol(v: sextet): byte {
    if v < 26 then v + 65
    else if v < 52 then v - 26 + 97
    else if v < 62 then v - 52 + 48
    else if v == 62 then 43
    else 47
  }

  function Value(c: byte): Option<sextet> {
    if 65 <= c <= 90 then Some(c - 65)
    else if 97 <= c <= 122 then Some(c - 97 + 26)
    else if 48 <= c <= 57 then Some(c - 48 + 52)
    else if c == 43 then Some(62)
    else if c == 47 then Some(63)
    else None
  }

  /** One to three bytes as two to four groups of six bits. */
  datatype Quantum =
    | OneByte(v0: sextet, v1: sextet)
    | TwoBytes(v0: sextet, v1: sextet, v2: sextet)
    | ThreeBytes(v0: sextet, v1: sextet, v2: sextet, v3: sextet)

  function Split(b: Bytes): Quantum
    requires 1 <= |b| <= 3
  {
    if |b| == 1 then OneByte(b[0] / 4, b[0] % 4 * 16)
    else if |b| == 2 then TwoBytes(b[0] / 4, b[0] % 4 * 16 + b[1] / 16, b[1] % 16 * 4)
    else ThreeBytes(b[0] / 4, b[0] % 4 * 16 + b[1] / 16, b[1] % 16 * 4 + b[2] / 64, b[2] % 64)
  }

  function Join(q: Quantum): Bytes {
    match q
    case OneByte(v0, v1) => [v0 * 4 + v1 / 16]
    case TwoBytes(v0, v1, v2) => [v0 * 4 + v1 / 16, v1 % 16 * 16 + v2 / 4]
    case ThreeBytes(v0, v1, v2, v3) => [v0 * 4 + v1 / 16, v1 % 16 * 16 + v2 / 4, v2 % 4 * 64 + v3]
  }

  function Show(q: Quantum): (s: Bytes)
    ensures |s| == 4
  {
    match q
    case OneByte(v0, v1) => [Symbol(v0), Symbol(v1), PAD, PAD]
    case TwoBytes(v0, v1, v2) => [Symbol(v0), Symbol(v1), Symbol(v2), PAD]
    case ThreeBytes(v0, v1, v2, v3) => [Symbol(v0), Symbol(v1), Symbol(v2), Symbol(v3)]
  }

  function Read(s: Bytes): Option<Quantum>
    requires |s| == 4
  {
    match (Value(s[0]), Value(s[1]), Value(s[2]), Value(s[3]))
    case (Some(v0), Some(v1), Some(v2), Some(v3)) => Some(ThreeBytes(v0, v1, v2, v3))
    case (Some(v0), Some(v1), Some(v2), None) => if s[3] == PAD then Some(TwoBytes(v0, v1, v2)) else None
    case (Some(v0), Some(v1), None, None) =>
      if s[2] == PAD && s[3] == PAD then Some(OneByte(v0, v1)) else None
    case _ => None
  }

  function Encode(b: Bytes): Bytes {
    if b == [] then []
    else if |b| < 3 then Show(Split(b))
    else Show(Split(b[..3])) + Encode(b[3..])
  }

  function WithoutNewlines(s: Bytes): Bytes {
    if s == [] then []
    else if s[0] == CR || s[0] == LF then WithoutNewlines(s[1..])
    else [s[0]] + WithoutNewlines(s[1..])
  }

  /** Padding may only end the input. */
  function DecodeQuanta(s: Bytes): Option<Bytes> {
    if s == [] then Some([])
    else if |s| < 4 then None
    else
      match Read(s[..4])
      case None => None
      case Some(q) =>
        if !q.ThreeBytes? then if |s| == 4 then Some(Join(q)) else None
        else
          match DecodeQuanta(s[4..])
          case None => None
          case Some(rest) => Some(Join(q) + rest)
  }

  function Decode(s: Bytes): Option<Bytes> { DecodeQuanta(WithoutNewlines(s)) }

  lemma SymbolsHaveValues(v: sextet)
    ensures Value(Symbol(v)) == Some(v)
    ensures Symbol(v) != PAD && Symbol(v) != CR && Symbol(v) != LF
  {
  }

  lemma ReadOfShow(q: Quantum)
    ensures Read(Show(q)) == Some(q)
  {
    SymbolsHaveValues(q.v0);
    SymbolsHaveValues(q.v1);
    if !q.OneByte? { SymbolsHaveValues(q.v2); }
    if q.ThreeBytes? { SymbolsHaveValues(q.v3); }
  }

  lemma Digits16(high: nat, low: nat)
    requires low < 16
    ensures (high * 16 + low) / 16 == high && (high * 16 + low) % 16 == low
  {
  }

  lemma Digits4(high: nat, low: nat)
    requires low < 4
    ensures (high * 4 + low) / 4 == high && (high * 4 + low) % 4 == low
  {
  }

  lemma JoinOfSplit(b: Bytes)
    requires 1 <= |b| <= 3
    ensures Join(Split(b)) == b
  {
    Digits16(b[0] % 4, if |b| == 1 then 0 else b[1] / 16);
    if 1 < |b| {
      Digits4(b[1] % 16, if |b| == 2 then 0 else b[2] / 64);
    }
    var joined := Join(Split(b));
    assert |joined| == |b|;
    assert joined[0] == b[0] / 4 * 4 + b[0] % 4;
    assert 1 < |b| ==> joined[1] == b[1] / 16 * 16 + b[1] % 16;
    assert 2 < |b| ==> joined[2] == b[2] / 64 * 64 + b[2] % 64;
  }

  lemma {:induction false} QuantaRoundTrip(b: Bytes)
    ensures DecodeQuanta(Encode(b)) == Some(b)
  {
    if b != [] {
      var group := if |b| < 3 then b else b[..3];
      var s := Encode(b);
      assert s[..4] == Show(Split(group));
      ReadOfShow(Split(group));
      JoinOfSplit(group);
      if 3 <= |b| {
        QuantaRoundTrip(b[3..]);
        assert s[4..] == Encode(b[3..]);
        assert b[..3] + b[3..] == b;
      }
    }
  }

  lemma {:induction false} EncodedHasNoNewlines(b: Bytes)
    ensures CR !in Encode(b) && LF !in Encode(b)
  {
    if b != [] {
      var q := Split(if |b| < 3 then b else b[..3]);
      SymbolsHaveValues(q.v0);
      SymbolsHaveValues(q.v1);
      if !q.OneByte? { SymbolsHaveValues(q.v2); }
      if q.ThreeBytes? { SymbolsHaveValues(q.v3); }
      assert CR !in Show(q) && LF !in Show(q);
      if 3 <= |b| {
        EncodedHasNoNewlines(b[3..]);
      }
    }
  }

  lemma {:induction false} NothingToSkip(s: Bytes)
    requires CR !in s && LF !in s
    ensures WithoutNewlines(s) == s
  {
    if s != [] {
      NothingToSkip(s[1..]);
    }
  }

  lemma {:induction false} EncodedLength(b: Bytes)
    ensures |Encode(b)| == (|b| + 2) / 3 * 4
  {
    if 3 <= |b| {
      EncodedLength(b[3..]);
      var rest := |b| - 3;
      assert |b[3..]| == rest && (rest + 2 + 3) / 3 == (rest + 2) / 3 + 1;
    }
  }

  lemma {:induction false} QuantaShrink(s: Bytes)
    requires s != [] && DecodeQuanta(s).Some?
    ensures 4 * |DecodeQuanta(s).value| <= 3 * |s|
  {
    if 4 < |s| {
      QuantaShrink(s[4..]);
    }
  }

  lemma {:induction false} SkippingShrinks(s: Bytes)
    ensures |WithoutNewlines(s)| <= |s|
  {
    if s != [] {
      SkippingShrinks(s[1..]);
    }
  }

  /** Decoding leaves at most three quarters of a text. */
  lemma DecodingShrinks(s: Bytes)
    requires s != [] && Decode(s).Some?
    ensures 4 * |Decode(s).value| <= 3 * |s|
  {
    SkippingShrinks(s);
    if WithoutNewlines(s) != [] {
      QuantaShrink(WithoutNewlines(s));
    }
  }

  /** Decoding an encoding gives the bytes back. */
  lemma RoundTrip(b: Bytes)
    ensures Decode(Encode(b)) == Some(b)
  {
    EncodedHasNoNewlines(b);
    NothingToSkip(Encode(b));
    QuantaRoundTrip(b);
  }

  // ---------- which texts decode ----------

  /** The alphabet of section 4 of RFC 4648, table 1. */
  lemma SymbolIs(v: sextet)
    ensures v < 26 ==> Symbol(v) as char == "ABCDEFGHIJKLMNOPQRSTUVWXYZ"[v]
    ensures 26 <= v < 52 ==> Symbol(v) as char == "abcdefghijklmnopqrstuvwxyz"[v - 26]
    ensures 52 <= v ==> Symbol(v) as char == "0123456789+/"[v - 52]
    ensures PAD as char == '=' && CR as char == '\r' && LF as char == '\n'
  {
  }

  /** An encoding leaves the unused bits of its last symbol zero. */
  lemma UnusedBitsAreZero(b: Bytes)
    requires 1 <= |b| <= 2
    ensures if |b| == 1 then Split(b).OneByte? && Split(b).v1 % 16 == 0 else Split(b).TwoBytes? && Split(b).v2 % 4 == 0
  {
  }

  lemma OnlySymbolsHaveValues(c: byte)
    ensures Value(c).Some? ==> Symbol(Value(c).value) == c
  {
  }

  /** Symbols of the alphabet, and padding for the last `pad`. */
  predicate Padded(s: Bytes, pad: nat)
    requires pad <= |s|
  {
    && (forall i :: 0 <= i < |s| - pad ==> Value(s[i]).Some?)
    && (forall i :: |s| - pad <= i < |s| ==> s[i] == PAD)
  }

  /** Whole groups of four symbols, of which the last may end with one or two paddings. */
  predicate WellFormed(s: Bytes) {
    |s| % 4 == 0 && (s != [] ==> Padded(s, 0) || Padded(s, 1) || Padded(s, 2))
  }

  lemma PaddedRest(s: Bytes, pad: nat)
    requires 4 < |s| && pad <= 2 && pad <= |s| - 4
    ensures Padded(s, pad) <==> Padded(s[..4], 0) && Padded(s[4..], pad)
  {
    if Padded(s[..4], 0) && Padded(s[4..], pad) {
      forall i | 0 <= i < |s| - pad ensures Value(s[i]).Some? {
        if i < 4 { assert s[i] == s[..4][i]; } else { assert s[i] == s[4..][i - 4]; }
      }
      forall i | |s| - pad <= i < |s| ensures s[i] == PAD {
        assert s[i] == s[4..][i - 4];
      }
    }
  }

  lemma OneQuantum(s: Bytes)
    requires |s| == 4
    ensures Read(s).Some? <==> Padded(s, 0) || Padded(s, 1) || Padded(s, 2)
    ensures Read(s).Some? && Read(s).value.ThreeBytes? <==> Padded(s, 0)
  {
  }

  lemma {:induction false} QuantaDecodeIff(s: Bytes)
    ensures DecodeQuanta(s).Some? <==> WellFormed(s)
    decreases |s|
  {
    if 4 <= |s| {
      OneQuantum(s[..4]);
      if |s| == 4 {
        assert s[..4] == s;
      } else {
        QuantaDecodeIff(s[4..]);
        if 8 <= |s| {
          PaddedRest(s, 0);
          PaddedRest(s, 1);
          PaddedRest(s, 2);
        }
      }
    }
  }

  /** A text decodes exactly if it is well formed but for carriage returns and line feeds. */
  lemma DecodesIffWellFormed(s: Bytes)
    ensures Decode(s).Some? <==> WellFormed(WithoutNewlines(s))
  {
    QuantaDecodeIff(WithoutNewlines(s));
  }

  /** These are skipped wherever they stand, and nothing else is. */
  lemma {:induction false} NewlinesAreSkipped(before: Bytes, c: byte, after: Bytes)
    ensures WithoutNewlines(before + [c] + after)
         == WithoutNewlines(before) + (if c == 10 || c == 13 then [] else [c]) + WithoutNewlines(after)
    ensures c == 10 || c == 13 ==> Decode(before + [c] + after) == Decode(before + after)
    decreases |before|
  {
    SkippedAppend(before, [c] + after);
    SkippedAppend(before, after);
    assert before + [c] + after == before + ([c] + after);
    assert ([c] + after)[1..] == after;
  }

  lemma {:induction false} SkippedAppend(a: Bytes, b: Bytes)
    ensures WithoutNewlines(a + b) == WithoutNewlines(a) + WithoutNewlines(b)
  {
    if a == [] {
      assert a + b == b;
    } else {
      assert (a + b)[1..] == a[1..] + b;
      SkippedAppend(a[1..], b);
    }
  }
}
