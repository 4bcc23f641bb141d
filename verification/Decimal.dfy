/** Decimal numerals: appendInt of pool.go and parseContentLength of header.go. */
module Decimal {
  import opened Bytes
  import opened Options

  const MIN_INT := -0x8000_0000_0000_0000
  const MINUS: byte := 45

  predicate AllDigits(b: bytes) {
    forall i :: 0 <= i < |b| ==> 48 <= b[i] <= 57
  }

  /** The number a numeral stands for. */
  function Value(b: bytes): nat
    requires AllDigits(b)
  {
    if |b| == 0 then 0 else Value(b[..|b| - 1]) * 10 + (b[|b| - 1] - 48) as int
  }

  /** A numeral that fits a 64-bit signed integer. */
  function Size(b: bytes): Option<nat> {
    if |b| > 0 && AllDigits(b) && Value(b) <= MAX_INT then Some(Value(b)) else None
  }

  lemma {:induction false} ValueGrows(b: bytes, i: nat)
    requires AllDigits(b) && i <= |b|
    ensures Value(b[..i]) <= Value(b)
    decreases |b|
  {
    if i < |b| {
      ValueGrows(b[..|b| - 1], i);
      assert b[..|b| - 1][..i] == b[..i];
    } else {
      assert b[..i] == b;
    }
  }

  /** The overflow test in front of every step rejects exactly the numerals that do not fit. */
  method ParseContentLength(b: bytes) returns (n: int, ok: bool)
    ensures ok <==> Size(b).Some?
    ensures n == if ok then Size(b).value else 0
  {
    if |b| == 0 {
      return 0, false;
    }
    n := 0;
    for i := 0 to |b|
      invariant AllDigits(b[..i])
      invariant 0 <= n == Value(b[..i]) <= MAX_INT
    {
      var c := b[i];
      assert AllDigits(b) ==> 48 <= b[i] <= 57;
      if c < 48 || c > 57 {
        return 0, false;
      }
      var d := (c - 48) as int;
      assert b[..i + 1][..i] == b[..i];
      if n > (MAX_INT - d) / 10 {
        if AllDigits(b) { ValueGrows(b, i + 1); }
        return 0, false;
      }
      n := n * 10 + d;
    }
    assert b[..|b|] == b;
    return n, true;
  }

  function LastDigit(n: nat): (d: byte)
    ensures 48 <= d <= 57
  {
    48 + (n % 10) as byte
  }

  function Tenth(n: nat): (q: nat)
    ensures n > 0 ==> q < n
  {
    n / 10
  }

  /** The shortest numeral. */
  function Digits(n: nat): (b: bytes)
    ensures |b| > 0 && AllDigits(b)
  {
    if n < 10 then [LastDigit(n)] else Digits(Tenth(n)) + [LastDigit(n)]
  }

  lemma {:induction false} DigitsReadBack(n: nat)
    ensures Value(Digits(n)) == n
  {
    var b := Digits(n);
    if n >= 10 {
      DigitsReadBack(Tenth(n));
      assert b[..|b| - 1] == Digits(Tenth(n));
    } else {
      assert b[..0] == [];
    }
  }

  function Pow10(k: nat): nat {
    if k == 0 then 1 else 10 * Pow10(k - 1)
  }

  lemma {:induction false} DigitsFit(n: nat, k: nat)
    requires k > 0 && n < Pow10(k)
    ensures |Digits(n)| <= k
    decreases k
  {
    if n >= 10 {
      DigitsFit(Tenth(n), k - 1);
    }
  }

  /** The remaining digits of a number whose last ones have been written. */
  function Leading(n: nat): bytes {
    if n == 0 then [] else Digits(n)
  }

  lemma LeadingStep(n: nat)
    requires n > 0
    ensures Leading(n) == Leading(Tenth(n)) + [LastDigit(n)]
  {
  }

  /** The result of appendInt: -n overflows for the least integer, of which only the sign is written. */
  function Decimal(n: int): bytes
    requires MIN_INT <= n <= MAX_INT
  {
    if n >= 0 then Digits(n) else if n == MIN_INT then [MINUS] else [MINUS] + Digits(-n)
  }

  lemma OneMoreDigit(n: nat, m: nat, tail: bytes)
    requires m > 0 && Leading(n) == Leading(m) + tail
    ensures Leading(n) == Leading(Tenth(m)) + ([LastDigit(m)] + tail)
    ensures |Leading(Tenth(m))| == |Leading(m)| - 1
  {
    LeadingStep(m);
    var q, d := Leading(Tenth(m)), [LastDigit(m)];
    assert (q + d) + tail == q + (d + tail);
  }

  lemma LeadingFits(n: nat)
    requires n <= MAX_INT
    ensures |Leading(n)| <= 20
  {
    Pow10Of20();
    DigitsFit(n, 20);
  }

  method PutDigit(buf: array<byte>, pos: nat, d: byte)
    requires pos < buf.Length
    modifies buf
    ensures buf[pos..] == [d] + old(buf[pos + 1..])
  {
    buf[pos] := d;
  }

  /** Fills the scratch array from its end. */
  method FillDigits(buf: array<byte>, n: nat) returns (pos: nat)
    requires buf.Length == 20 && n <= MAX_INT
    modifies buf
    ensures pos <= 20 && buf[pos..] == Leading(n)
  {
    var m := n;
    pos := 20;
    LeadingFits(n);
    while m > 0
      invariant pos <= 20 && |Leading(m)| <= pos
      invariant Leading(n) == Leading(m) + buf[pos..]
    {
      ghost var tail := buf[pos..];
      OneMoreDigit(n, m, tail);
      pos := pos - 1;
      PutDigit(buf, pos, LastDigit(m));
      m := Tenth(m);
    }
  }

  /** appendInt: the digits are taken from a scratch array of 20 bytes. */
  method AppendInt(dst: bytes, n: int) returns (r: bytes)
    requires MIN_INT <= n <= MAX_INT
    ensures r == dst + Decimal(n)
  {
    if n == 0 {
      return dst + [48];
    }
    r := dst;
    var m := n;
    if n < 0 {
      r := r + [MINUS];
      m := if n == MIN_INT then MIN_INT else -n;
    }
    if m > 0 {
      var buf := new byte[20];
      var pos := FillDigits(buf, m);
      r := r + buf[pos..];
    }
  }

  lemma Pow10Of20()
    ensures Pow10(20) == 100_000_000_000_000_000_000
  {
    assert Pow10(5) == 100_000;
    assert Pow10(10) == 10_000_000_000;
    assert Pow10(15) == 1_000_000_000_000_000;
  }

  /** Reading back what was written gives the number, for every length a body can have. */
  lemma LengthReadsBack(n: nat)
    requires n <= MAX_INT
    ensures Size(Decimal(n)) == Some(n)
  {
    DigitsReadBack(n);
  }

  lemma DigitsWithin19(n: nat)
    requires n <= MAX_INT
    ensures |Digits(n)| <= 19
  {
    Pow10Of20();
    assert Pow10(20) == 10 * Pow10(19);
    DigitsFit(n, 19);
  }

  lemma {:induction false} Pow10Positive(k: nat)
    ensures Pow10(k) >= 1
  {
    if k > 0 { Pow10Positive(k - 1); }
  }

  lemma {:induction false} DigitsReach(n: nat, k: nat)
    requires n >= Pow10(k)
    ensures |Digits(n)| >= k + 1
    decreases k
  {
    if k > 0 {
      Pow10Positive(k - 1);
      DigitsReach(Tenth(n), k - 1);
    }
  }

  lemma DigitsOfMax()
    ensures |Digits(MAX_INT)| == 19
  {
    DigitsWithin19(MAX_INT);
    Pow10Of20();
    assert Pow10(20) == 10 * Pow10(19) && Pow10(19) == 10 * Pow10(18);
    DigitsReach(MAX_INT, 18);
  }
}
