/**
 * Character classes and the two textual encodings the service emits:
 * upper-case hex (the random part of a membership code) and decimal
 * integers (the issuance timestamp of a membership key).  Each encoding is
 * paired with a parser that is proved to invert it.
 */
module Text {
  import opened Wrappers

  /** ASCII approximations of Python's str.isupper/islower/isdigit/isalnum on one character. */
  predicate IsUpper(c: char) { 'A' <= c <= 'Z' }
  predicate IsLower(c: char) { 'a' <= c <= 'z' }
  predicate IsDigit(c: char) { '0' <= c <= '9' }
  predicate IsAlnum(c: char) { IsUpper(c) || IsLower(c) || IsDigit(c) }

  /** Python's `str.isascii()`: every code point is below 128. */
  predicate IsAscii(s: string) { forall i :: 0 <= i < |s| ==> s[i] as int < 128 }

  /** Python's `any(p(c) for c in s)`. */
  function Any(s: string, p: char -> bool): (b: bool)
    ensures b <==> exists i :: 0 <= i < |s| && p(s[i])
  {
    if s == [] then false
    else if p(s[0]) then true
    else
      var b := Any(s[1..], p);
      assert forall i :: 1 <= i < |s| ==> s[i] == s[1..][i - 1];
      b
  }

  type Byte = x: int | 0 <= x < 256

  /** One hex digit, upper case (`bytes.hex().upper()`). */
  function HexDigit(d: nat): (c: char)
    requires d < 16
  {
    if d < 10 then ('0' as int + d) as char else ('A' as int + d - 10) as char
  }

  predicate IsHexUpper(c: char) { IsDigit(c) || 'A' <= c <= 'F' }

  function HexValue(c: char): (v: Option<nat>)
    ensures v.Some? <==> IsHexUpper(c)
    ensures v.Some? ==> v.value < 16
  {
    if IsDigit(c) then Some(c as int - '0' as int)
    else if 'A' <= c <= 'F' then Some(c as int - 'A' as int + 10)
    else None
  }

  /** Two upper-case hex digits per byte, most significant nibble first. */
  function HexUpper(bytes: seq<Byte>): (s: string)
    ensures |s| == 2 * |bytes|
    ensures forall i :: 0 <= i < |s| ==> IsHexUpper(s[i])
  {
    if bytes == [] then []
    else [HexDigit(bytes[0] / 16), HexDigit(bytes[0] % 16)] + HexUpper(bytes[1..])
  }

  /** Inverse of HexUpper: None unless the text is an even number of upper-case hex digits. */
  function ParseHex(s: string): (r: Option<seq<Byte>>)
    decreases |s|
  {
    if s == [] then Some([])
    else if |s| == 1 then None
    else match (HexValue(s[0]), HexValue(s[1]), ParseHex(s[2..]))
      case (Some(hi), Some(lo), Some(rest)) => Some([(hi * 16 + lo) as Byte] + rest)
      case _ => None
  }

  lemma {:induction false} HexRoundTrip(bytes: seq<Byte>)
    ensures ParseHex(HexUpper(bytes)) == Some(bytes)
  {
    if bytes != [] {
      var s := HexUpper(bytes);
      assert s[2..] == HexUpper(bytes[1..]);
      HexRoundTrip(bytes[1..]);
      assert HexValue(s[0]) == Some(bytes[0] / 16);
      assert HexValue(s[1]) == Some(bytes[0] % 16);
      assert [bytes[0]] + bytes[1..] == bytes;
    }
  }

  function DecimalDigit(d: nat): (c: char)
    requires d < 10
  {
    ('0' as int + d) as char
  }

  /** Python's `str(n)` for a non-negative integer: no sign, no leading zero. */
  function Decimal(n: nat): (s: string)
    ensures |s| >= 1
    ensures forall i :: 0 <= i < |s| ==> IsDigit(s[i])
  {
    if n < 10 then [DecimalDigit(n)] else Decimal(n / 10) + [DecimalDigit(n % 10)]
  }

  /** Inverse of Decimal: None unless the text is one or more ASCII digits. */
  function ParseDecimal(s: string): (r: Option<nat>)
    decreases |s|
  {
    if s == [] || !IsDigit(s[|s| - 1]) then None
    else
      var d := s[|s| - 1] as int - '0' as int;
      if |s| == 1 then Some(d)
      else match ParseDecimal(s[..|s| - 1])
        case Some(v) => Some(v * 10 + d)
        case None => None
  }

  lemma {:induction false} DecimalRoundTrip(n: nat)
    ensures ParseDecimal(Decimal(n)) == Some(n)
  {
    if n >= 10 {
      var s := Decimal(n);
      assert s[..|s| - 1] == Decimal(n / 10);
      DecimalRoundTrip(n / 10);
    }
  }
}
