/** Hexadecimal chunk sizes as appendHex writes them (stream.go). */
module Hex {
  import opened Bytes
  import opened Options
  import opened Chunked
  import opened Sequences

  function HexDigit(d: nat): (c: byte)
    requires d < 16
    ensures IsHex(c) && Digit(c) == d
  {
    if d < 10 then (48 + d) as byte else (87 + d) as byte
  }

  /** The shortest numeral; empty for 0. */
  function HexDigits(n: nat): (b: bytes)
    ensures AllHex(b) && HexValue(b) == n && (n > 0 ==> b != [])
  {
    if n == 0 then []
    else
      var b := HexDigits(n / 16) + [HexDigit(n % 16)];
      assert b[..|b| - 1] == HexDigits(n / 16);
      b
  }

  function Numeral(n: nat): bytes {
    if n == 0 then [48] else HexDigits(n)
  }

  /** What was written is read back, by either way to read a size. */
  lemma HexReadsBack(n: nat)
    requires n <= MAX_INT
    ensures HexSize(Numeral(n)) == SignedSize(Numeral(n)) == Some(n) && 0 < |Numeral(n)| <= 16
  {
    if n == 0 { ZeroDigit(); } else { DigitsFit(n, 16); }
    assert IsHex(Numeral(n)[0]);
  }

  function Pow16(k: nat): nat {
    if k == 0 then 1 else 16 * Pow16(k - 1)
  }

  lemma {:induction false} DigitsShort(n: nat, k: nat)
    requires n < Pow16(k)
    ensures |HexDigits(n)| <= k
    decreases k
  {
    if n > 0 { DigitsShort(n / 16, k - 1); }
  }

  lemma DigitsFit(n: nat, k: nat)
    requires n <= MAX_INT && k == 16
    ensures |HexDigits(n)| <= k
  {
    assert Pow16(4) == 0x1_0000;
    assert Pow16(8) == 0x1_0000_0000;
    assert Pow16(12) == 0x1_0000_0000_0000;
    assert Pow16(16) == 0x1_0000_0000_0000_0000;
    DigitsShort(n, 16);
  }

  /** appendHex fills a scratch array of 16 bytes from its end. */
  method AppendHex(dst: bytes, n: nat) returns (r: bytes)
    requires n <= MAX_INT
    ensures r == dst + Numeral(n)
  {
    var scratch := new byte[16];
    var i, m := 16, n;
    DigitsFit(n, 16);
    while m > 0
      invariant 0 <= i <= 16 && |HexDigits(m)| <= i && HexDigits(n) == HexDigits(m) + scratch[i..]
      decreases m
    {
      ghost var done := scratch[i..];
      i := i - 1;
      scratch[i] := HexDigit(m % 16);
      assert scratch[i..] == [HexDigit(m % 16)] + done;
      Assoc(HexDigits(m / 16), [HexDigit(m % 16)], done);
      m := m / 16;
    }
    if i == 16 {
      return dst + [48];
    }
    assert HexDigits(n) == scratch[i..];
    return dst + scratch[i..];
  }
}
