/** Facts about keys built by joining fields with colons, and about decimal and hexadecimal numerals. */
module Text {
  import opened Wrappers

  predicate ColonFree(s: string) { ':' !in s }

  /** A colon-free first field is recovered from the joined key. */
  lemma FirstField(a: string, b: string, c: string, d: string)
    requires ColonFree(a) && ColonFree(c)
    ensures a + ":" + b == c + ":" + d <==> a == c && b == d
  {
    var x, y := a + ":" + b, c + ":" + d;
    forall i | 0 <= i < |a| ensures x[i] != ':' {
      assert a[i] in a;
    }
    forall i | 0 <= i < |c| ensures y[i] != ':' {
      assert c[i] in c;
    }
    assert x[|a|] == ':' && y[|c|] == ':';
    if x == y {
      assert x[..|a|] == a && y[..|c|] == c;
      assert x[|a| + 1..] == b && y[|c| + 1..] == d;
    }
  }

  /** A last field of known length is recovered from the joined key. */
  lemma LastField(a: string, b: string, c: string, d: string)
    requires |b| == |d|
    ensures a + ":" + b == c + ":" + d <==> a == c && b == d
  {
    var x, y := a + ":" + b, c + ":" + d;
    if x == y {
      assert |a| == |c|;
      assert x[..|a|] == a && y[..|a|] == c;
      assert x[|a| + 1..] == b && y[|a| + 1..] == d;
    }
  }

  type byte = x: int | 0 <= x < 256

  function HexDigit(d: int): char
    requires 0 <= d < 16
  {
    if d < 10 then (d + '0' as int) as char else (d - 10 + 'a' as int) as char
  }

  function Hex(bytes: seq<byte>): (s: string)
    ensures |s| == 2 * |bytes|
  {
    if bytes == [] then ""
    else [HexDigit(bytes[0] / 16), HexDigit(bytes[0] % 16)] + Hex(bytes[1..])
  }

  /** Two lower-case digits a byte, the high one first. */
  lemma {:induction false} HexAt(bytes: seq<byte>, i: nat)
    requires i < |bytes|
    ensures Hex(bytes)[2 * i] == "0123456789abcdef"[bytes[i] / 16]
    ensures Hex(bytes)[2 * i + 1] == "0123456789abcdef"[bytes[i] % 16]
  {
    if i == 0 {
      HexDigitIs(bytes[0] / 16);
      HexDigitIs(bytes[0] % 16);
    } else {
      HexAt(bytes[1..], i - 1);
    }
  }

  lemma HexDigitIs(d: int)
    requires 0 <= d < 16
    ensures HexDigit(d) == "0123456789abcdef"[d]
  {
  }

  lemma {:induction false} HexIsInjective(a: seq<byte>, b: seq<byte>)
    requires Hex(a) == Hex(b)
    ensures a == b
  {
    if a != [] && b != [] {
      assert Hex(a)[2..] == Hex(a[1..]) && Hex(b)[2..] == Hex(b[1..]);
      HexIsInjective(a[1..], b[1..]);
      assert Hex(a)[0] == HexDigit(a[0] / 16) && Hex(a)[1] == HexDigit(a[0] % 16);
      assert Hex(b)[0] == HexDigit(b[0] / 16) && Hex(b)[1] == HexDigit(b[0] % 16);
      HexDigitIsInjective(a[0] / 16, b[0] / 16);
      HexDigitIsInjective(a[0] % 16, b[0] % 16);
      assert a == [a[0]] + a[1..] && b == [b[0]] + b[1..];
    }
  }

  lemma HexDigitIsInjective(d: int, e: int)
    requires 0 <= d < 16 && 0 <= e < 16
    ensures HexDigit(d) == HexDigit(e) ==> d == e
  {
  }

  lemma {:induction false} HexIsColonFree(bytes: seq<byte>)
    ensures ColonFree(Hex(bytes))
  {
    if bytes != [] {
      HexIsColonFree(bytes[1..]);
    }
  }

  function Digits(n: nat): (s: string)
    ensures s != ""
    ensures forall c :: c in s ==> '0' <= c <= '9'
  {
    if n < 10 then [HexDigit(n)] else Digits(n / 10) + [HexDigit(n % 10)]
  }

  /** strconv.FormatInt in base 10. */
  function FormatInt(n: int): (s: string)
    ensures s != ""
  {
    if n < 0 then "-" + Digits(-n) else Digits(n)
  }

  lemma {:induction false} NoLeadingZero(n: nat)
    requires 0 < n
    ensures Digits(n)[0] != '0'
  {
    if n >= 10 {
      NoLeadingZero(n / 10);
    }
  }

  /** A minus sign exactly for negative numbers, then digits without a leading zero. */
  lemma FormatIs(n: int)
    ensures FormatInt(n)[0] == '-' <==> n < 0
    ensures 0 < n ==> FormatInt(n)[0] != '0' && FormatInt(-n) == "-" + FormatInt(n)
    ensures FormatInt(0) == "0"
  {
    if 0 < n { NoLeadingZero(n); }
    if 0 <= n { assert FormatInt(n)[0] in FormatInt(n); }
  }

  function ParseDigits(s: string): Option<nat> {
    if s == "" then None
    else
      var c := s[|s| - 1];
      if !('0' <= c <= '9') then None
      else if |s| == 1 then Some(c as int - '0' as int)
      else match ParseDigits(s[..|s| - 1])
        case None => None
        case Some(high) => Some(10 * high + (c as int - '0' as int))
  }

  /** strconv.ParseInt in base 10 without its range check: an optional sign and at least one digit. */
  function ParseInt(s: string): Option<int> {
    if s != "" && s[0] in "+-" then
      match ParseDigits(s[1..])
      case None => None
      case Some(n) => var value: int := n; Some(if s[0] == '-' then -value else value)
    else
      match ParseDigits(s)
      case None => None
      case Some(n) => Some(n)
  }

  predicate IsDigits(s: string) { s != "" && forall i :: 0 <= i < |s| ==> '0' <= s[i] <= '9' }

  lemma {:induction false} DigitsParse(s: string)
    ensures ParseDigits(s).Some? <==> IsDigits(s)
  {
    if 1 < |s| {
      DigitsParse(s[..|s| - 1]);
    }
  }

  /** A numeral is an optional sign and digits, leading zeros included. */
  lemma NumeralsParse(s: string)
    ensures ParseInt(s).Some? <==> IsDigits(s) || (s != "" && (s[0] == '+' || s[0] == '-') && IsDigits(s[1..]))
    ensures IsDigits(s) ==> ParseInt("+" + s) == ParseInt(s) == ParseInt("0" + s)
    ensures IsDigits(s) ==> ParseInt("-" + s) == Some(-ParseInt(s).value)
  {
    DigitsParse(s);
    if s != "" {
      DigitsParse(s[1..]);
    }
    if IsDigits(s) {
      assert ("+" + s)[1..] == s && ("-" + s)[1..] == s;
      ZeroInFront(s);
    }
  }

  lemma {:induction false} ZeroInFront(s: string)
    requires IsDigits(s)
    ensures ParseDigits("0" + s) == ParseDigits(s)
  {
    var t := "0" + s;
    assert t[..|t| - 1] == "0" + s[..|s| - 1];
    if 1 < |s| {
      ZeroInFront(s[..|s| - 1]);
    }
  }

  lemma {:induction false} ParseOfDigits(n: nat)
    ensures ParseDigits(Digits(n)) == Some(n)
  {
    if n >= 10 {
      ParseOfDigits(n / 10);
      var s := Digits(n);
      assert s[..|s| - 1] == Digits(n / 10);
    }
  }

  /** Parsing a formatted integer gives it back. */
  lemma ParseOfFormat(n: int)
    ensures ParseInt(FormatInt(n)) == Some(n)
  {
    ParseOfDigits(if n < 0 then -n else n);
    var s := FormatInt(n);
    if n < 0 {
      assert s[1..] == Digits(-n);
    } else {
      assert s[0] in s;
    }
  }
}
