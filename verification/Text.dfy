/** The textual forms that persisted values take: decimal integers, booleans and hexadecimal bytes. */
module Text {
  import opened Wrappers

  // ---------- decimal integers ----------

  function DigitChar(d: int): char
    requires 0 <= d < 10
  {
    '0' + d as char
  }

  predicate IsDigit(c: char) { '0' <= c <= '9' }

  function PrintNat(n: nat): (s: string)
    ensures s != "" && forall i :: 0 <= i < |s| ==> IsDigit(s[i])
  {
    if n < 10 then [DigitChar(n)] else PrintNat(n / 10) + [DigitChar(n % 10)]
  }

  function PrintInt(i: int): string { if i < 0 then "-" + PrintNat(-i) else PrintNat(i) }

  /** The value of a string of digits; None when it is empty or has another character. */
  function ParseNat(s: string): Option<nat> {
    if s == "" || !IsDigit(s[|s| - 1]) then None
    else
      var d := (s[|s| - 1] - '0') as nat;
      if |s| == 1 then Some(d)
      else match ParseNat(s[..|s| - 1])
        case None => None
        case Some(n) => Some(10 * n + d)
  }

  /** An optional sign and digits. */
  predicate Decimal(s: string) {
    ParseNat(if s != "" && (s[0] == '-' || s[0] == '+') then s[1..] else s).Some?
  }

  const MAX_INT: int := 0x7fff_ffff_ffff_ffff
  const MIN_INT: int := -0x8000_0000_0000_0000

  function Clamp(i: int): int { if i < MIN_INT then MIN_INT else if MAX_INT < i then MAX_INT else i }

  /** strconv.Atoi with its error ignored: zero for a syntax error, the nearest 64-bit integer for a
      number out of range. */
  function Atoi(s: string): int {
    var negative := s != "" && s[0] == '-';
    var digits := if s != "" && (s[0] == '-' || s[0] == '+') then s[1..] else s;
    match ParseNat(digits)
    case None => 0
    case Some(n) => if negative then Clamp(0 - n) else Clamp(n)
  }

  lemma {:induction false} ParsePrint(n: nat)
    ensures ParseNat(PrintNat(n)) == Some(n)
  {
    if 10 <= n {
      ParsePrint(n / 10);
      assert PrintNat(n)[..|PrintNat(n)| - 1] == PrintNat(n / 10);
    }
  }

  /** One digit or more, and nothing else. */
  predicate Digits(s: string) { s != "" && forall i :: 0 <= i < |s| ==> '0' <= s[i] <= '9' }

  lemma {:induction false} ParsesDigits(s: string)
    ensures ParseNat(s).Some? <==> Digits(s)
  {
    if 1 < |s| {
      ParsesDigits(s[..|s| - 1]);
    }
  }

  /** What is not an optional sign and digits is read as zero. */
  lemma ZeroUnlessDecimal(s: string)
    ensures Decimal(s) <==> Digits(s) || (s != "" && (s[0] == '-' || s[0] == '+') && Digits(s[1..]))
    ensures !Decimal(s) ==> Atoi(s) == 0
  {
    ParsesDigits(s);
    if s != "" {
      ParsesDigits(s[1..]);
    }
  }

  lemma AtoiMinus(n: nat)
    ensures Atoi("-" + PrintNat(n)) == if n <= 0x8000_0000_0000_0000 then 0 - n else -0x8000_0000_0000_0000
  {
    ParsePrint(n);
    var minus := "-" + PrintNat(n);
    assert minus[0] == '-' && minus[1..] == PrintNat(n);
  }

  lemma AtoiPlus(n: nat)
    ensures Atoi("+" + PrintNat(n)) == if n <= 0x7fff_ffff_ffff_ffff then n else 0x7fff_ffff_ffff_ffff
  {
    ParsePrint(n);
    var plus := "+" + PrintNat(n);
    assert plus[0] == '+' && plus[1..] == PrintNat(n);
  }

  lemma AtoiPlain(n: nat)
    ensures Atoi(PrintNat(n)) == if n <= 0x7fff_ffff_ffff_ffff then n else 0x7fff_ffff_ffff_ffff
  {
    ParsePrint(n);
    assert IsDigit(PrintNat(n)[0]);
  }

  /** Reading back a printed integer: the integer itself, or the nearest one of 64 bits. */
  lemma AtoiPrint(i: int)
    ensures Atoi(PrintInt(i)) == if i < -0x8000_0000_0000_0000 then -0x8000_0000_0000_0000
                                 else if 0x7fff_ffff_ffff_ffff < i then 0x7fff_ffff_ffff_ffff else i
  {
    if i < 0 {
      AtoiMinus(0 - i);
    } else {
      AtoiPlain(i);
    }
  }

  // ---------- booleans ----------

  function PrintBool(b: bool): string { if b then "true" else "false" }

  /** strconv.ParseBool with its error ignored. */
  predicate ParseBool(s: string) { s in ["1", "t", "T", "TRUE", "true", "True"] }

  lemma ParsePrintBool(b: bool)
    ensures ParseBool(PrintBool(b)) == b
  {
    assert PrintBool(true) == "true";
    assert "false"[0] == 'f';
  }

  // ---------- hexadecimal ----------

  type Byte = b: int | 0 <= b < 256

  function HexChar(n: int): char
    requires 0 <= n < 16
  {
    if n < 10 then '0' + n as char else 'a' + (n - 10) as char
  }

  function HexValue(c: char): (r: Option<int>)
    ensures r.Some? ==> 0 <= r.value < 16
  {
    if '0' <= c <= '9' then Some((c - '0') as int)
    else if 'a' <= c <= 'f' then Some((c - 'a') as int + 10)
    else if 'A' <= c <= 'F' then Some((c - 'A') as int + 10)
    else None
  }

  lemma HexDigitBack(n: int)
    requires 0 <= n < 16
    ensures HexValue(HexChar(n)) == Some(n)
  {
  }

  function HexEncode(bytes: seq<Byte>): (s: string)
    ensures |s| == 2 * |bytes|
  {
    if bytes == [] then "" else [HexChar(bytes[0] / 16), HexChar(bytes[0] % 16)] + HexEncode(bytes[1..])
  }

  /** None for an odd length or a character that is not a hexadecimal digit. */
  function HexDecode(s: string): Option<seq<Byte>> {
    if s == "" then Some([])
    else if |s| == 1 then None
    else match (HexValue(s[0]), HexValue(s[1]), HexDecode(s[2..]))
      case (Some(h), Some(l), Some(rest)) => Some([16 * h + l] + rest)
      case _ => None
  }

  lemma {:induction false} HexRoundTrip(bytes: seq<Byte>)
    ensures HexDecode(HexEncode(bytes)) == Some(bytes)
    decreases |bytes|
  {
    if bytes != [] {
      var s := HexEncode(bytes);
      assert s[2..] == HexEncode(bytes[1..]);
      HexDigitBack(bytes[0] / 16);
      HexDigitBack(bytes[0] % 16);
      HexRoundTrip(bytes[1..]);
      assert [bytes[0]] + bytes[1..] == bytes;
    }
  }

  const HEX := "0123456789abcdef"

  /** Two lower-case digits for each byte, in order. */
  lemma {:induction false} HexEncodeAt(bytes: seq<Byte>, k: nat)
    requires k < |bytes|
    ensures HexEncode(bytes)[2 * k] == HEX[bytes[k] / 16] && HexEncode(bytes)[2 * k + 1] == HEX[bytes[k] % 16]
  {
    if k == 0 {
      HexCharIs(bytes[0] / 16);
      HexCharIs(bytes[0] % 16);
    } else {
      HexEncodeAt(bytes[1..], k - 1);
    }
  }

  lemma HexCharIs(n: int)
    requires 0 <= n < 16
    ensures HexChar(n) == HEX[n]
  {
  }

  predicate HexDigit(c: char) { '0' <= c <= '9' || 'a' <= c <= 'f' || 'A' <= c <= 'F' }

  predicate HexDigits(s: string) { forall i :: 0 <= i < |s| ==> HexDigit(s[i]) }

  lemma DigitsFirst(s: string)
    requires 2 <= |s|
    ensures HexDigits(s) <==> HexDigit(s[0]) && HexDigit(s[1]) && HexDigits(s[2..])
  {
    if HexDigit(s[0]) && HexDigit(s[1]) && HexDigits(s[2..]) {
      forall i | 0 <= i < |s|
        ensures HexDigit(s[i])
      {
        assert 2 <= i ==> s[i] == s[2..][i - 2];
      }
    }
  }

  lemma DigitValue(c: char)
    ensures HexValue(c).Some? <==> HexDigit(c)
  {
  }

  /** A string decodes exactly when it is made of pairs of digits, each pair giving one byte. */
  lemma {:induction false} DecodesExactlyWhen(s: string)
    ensures HexDecode(s).Some? <==> |s| % 2 == 0 && HexDigits(s)
    ensures HexDecode(s).Some? ==> 2 * |HexDecode(s).value| == |s|
  {
    if 2 <= |s| {
      DecodesExactlyWhen(s[2..]);
      DigitsFirst(s);
      DigitValue(s[0]);
      DigitValue(s[1]);
    }
  }

  /** The case of a digit does not matter. */
  lemma EitherCase(c: char)
    requires 'A' <= c <= 'F'
    ensures HexValue(c) == HexValue(c + 32 as char)
  {
  }
}
