/** Tokens, optional whitespace and case folding, as the header and chunk parsers use them. */
module Text {
  import opened Bytes

  /** The delimiters ( ) < > @ , ; : \ " / [ ] ? = { } */
  predicate Forbidden(c: byte) {
    || c == 34 || c == 40 || c == 41 || c == 44 || c == 47 || c == 58 || c == 59 || 60 <= c <= 64
    || 91 <= c <= 93 || c == 123 || c == 125
  }

  /** A token: one or more visible ASCII bytes other than the delimiters. */
  predicate ValidToken(b: bytes) {
    |b| > 0 && forall i :: 0 <= i < |b| ==> 0x20 < b[i] < 0x7f && !Forbidden(b[i])
  }

  function Lower(c: byte): byte {
    if 65 <= c <= 90 then c + 32 else c
  }

  /** ASCII case-insensitive equality. */
  predicate EqualFold(a: bytes, b: bytes) {
    |a| == |b| && forall i :: 0 <= i < |a| ==> Lower(a[i]) == Lower(b[i])
  }

  // ---------------------------------------------------------------- trimOWS

  predicate IsOWS(c: byte) {
    c == SP || c == HTAB
  }

  predicate AllOWS(b: bytes) {
    forall i :: 0 <= i < |b| ==> IsOWS(b[i])
  }

  /** The first position from i on that holds no space or tab. */
  function SkipOWS(b: bytes, i: nat): (j: nat)
    requires i <= |b|
    ensures i <= j <= |b| && (forall k :: i <= k < j ==> IsOWS(b[k])) && (j < |b| ==> !IsOWS(b[j]))
    decreases |b| - i
  {
    if i < |b| && IsOWS(b[i]) then SkipOWS(b, i + 1) else i
  }

  /** The end of b[lo..j] without the spaces and tabs it ends in, and without carriage returns if cr. */
  function BackOWS(b: bytes, lo: nat, j: nat, cr: bool): (r: nat)
    requires lo <= j <= |b|
    ensures lo <= r <= j && (forall k :: r <= k < j ==> IsOWS(b[k]) || (cr && b[k] == CR))
    ensures r > lo ==> !IsOWS(b[r - 1]) && (cr ==> b[r - 1] != CR)
    decreases j
  {
    if j > lo && (IsOWS(b[j - 1]) || (cr && b[j - 1] == CR)) then BackOWS(b, lo, j - 1, cr) else j
  }

  function Trim(b: bytes, cr: bool): bytes {
    var i := SkipOWS(b, 0);
    b[i..BackOWS(b, i, |b|, cr)]
  }

  /** trimOWS also strips trailing carriage returns. */
  function TrimOWS(b: bytes): bytes {
    Trim(b, true)
  }

  /** A value that trimming leaves alone. */
  predicate Tight(v: bytes, cr: bool) {
    |v| > 0 ==> !IsOWS(v[0]) && !IsOWS(v[|v| - 1]) && (cr ==> v[|v| - 1] != CR)
  }

  /** Between the positions lo and hi, where trimming has to stop. */
  lemma TrimStops(b: bytes, lo: nat, hi: nat, cr: bool)
    requires lo < hi <= |b| && !IsOWS(b[lo]) && !IsOWS(b[hi - 1]) && (cr ==> b[hi - 1] != CR)
    requires (forall k :: 0 <= k < lo ==> IsOWS(b[k])) && forall k :: hi <= k < |b| ==> IsOWS(b[k])
    ensures Trim(b, cr) == b[lo..hi]
  {
    var i := SkipOWS(b, 0);
    assert i == lo;
    assert BackOWS(b, i, |b|, cr) == hi;
  }

  lemma TrimPadded(lead: bytes, v: bytes, tail: bytes, cr: bool)
    requires AllOWS(lead) && AllOWS(tail) && Tight(v, cr)
    ensures Trim(lead + v + tail, cr) == v
  {
    var b, lo, hi := lead + v + tail, |lead|, |lead| + |v|;
    assert forall k :: 0 <= k < lo ==> b[k] == lead[k];
    assert forall k :: hi <= k < |b| ==> b[k] == tail[k - hi];
    if |v| == 0 {
      assert SkipOWS(b, 0) == |b|;
    } else {
      assert b[lo] == v[0] && b[hi - 1] == v[|v| - 1] && b[lo..hi] == v;
      TrimStops(b, lo, hi, cr);
    }
  }

  // ---------------------------------------------------------------- bytes.TrimSpace

  predicate IsAsciiSpace(c: byte) {
    c == SP || 9 <= c <= 13
  }

  /** The UTF-8 forms of the white space outside ASCII, of two and of three bytes. */
  predicate Wide2(a: byte, b: byte) {
    a == 0xC2 && (b == 0x85 || b == 0xA0)
  }

  predicate Wide3(a: byte, b: byte, c: byte) {
    || (a == 0xE1 && b == 0x9A && c == 0x80)
    || (a == 0xE2 && b == 0x80 && (0x80 <= c <= 0x8A || c == 0xA8 || c == 0xA9 || c == 0xAF))
    || (a == 0xE2 && b == 0x81 && c == 0x9F)
    || (a == 0xE3 && b == 0x80 && c == 0x80)
  }

  /** The length of the white space character at the front of b[i..j], or 0. */
  function SpaceAt(b: bytes, i: nat, j: nat): (n: nat)
    requires i <= j <= |b|
    ensures i + n <= j && (n > 0 ==> IsAsciiSpace(b[i]) || b[i] >= 0x80)
  {
    if i < j && IsAsciiSpace(b[i]) then 1
    else if i + 2 <= j && Wide2(b[i], b[i + 1]) then 2
    else if i + 3 <= j && Wide3(b[i], b[i + 1], b[i + 2]) then 3
    else 0
  }

  /** The length of the white space character at the end of b[i..j], or 0. */
  function SpaceBefore(b: bytes, i: nat, j: nat): (n: nat)
    requires i <= j <= |b|
    ensures i <= j - n && (n > 0 ==> IsAsciiSpace(b[j - 1]) || b[j - 1] >= 0x80)
  {
    if i < j && IsAsciiSpace(b[j - 1]) then 1
    else if i + 2 <= j && Wide2(b[j - 2], b[j - 1]) then 2
    else if i + 3 <= j && Wide3(b[j - 3], b[j - 2], b[j - 1]) then 3
    else 0
  }

  function SkipSpace(b: bytes, i: nat): (j: nat)
    requires i <= |b|
    ensures i <= j <= |b| && SpaceAt(b, j, |b|) == 0
    decreases |b| - i
  {
    var n := SpaceAt(b, i, |b|);
    if n == 0 then i else SkipSpace(b, i + n)
  }

  function BackSpace(b: bytes, lo: nat, j: nat): (r: nat)
    requires lo <= j <= |b|
    ensures lo <= r <= j && SpaceBefore(b, lo, r) == 0
    decreases j
  {
    var n := SpaceBefore(b, lo, j);
    if n == 0 then j else BackSpace(b, lo, j - n)
  }

  function TrimSpace(b: bytes): bytes {
    var i := SkipSpace(b, 0);
    b[i..BackSpace(b, i, |b|)]
  }

  /** A value that neither begins nor ends in white space. */
  predicate Bare(v: bytes) {
    SpaceAt(v, 0, |v|) == 0 && SpaceBefore(v, 0, |v|) == 0
  }

  predicate AllSpace(b: bytes) {
    forall i :: 0 <= i < |b| ==> IsAsciiSpace(b[i])
  }

  lemma SpaceOfPart(b: bytes, i: nat, j: nat)
    requires i <= j <= |b|
    ensures SpaceAt(b[i..j], 0, j - i) == SpaceAt(b, i, j) && SpaceBefore(b[i..j], 0, j - i) == SpaceBefore(b, i, j)
  {
  }

  /** A white space character outside ASCII does not reach into what follows in ASCII. */
  lemma SpaceStaysInside(b: bytes, i: nat, j: nat)
    requires i < j <= |b| && (j < |b| ==> b[j] < 0x80)
    ensures SpaceAt(b, i, |b|) == SpaceAt(b, i, j)
  {
  }

  lemma {:induction false} SkipSpaceTo(b: bytes, i: nat, p: nat)
    requires i <= p <= |b| && (forall k :: i <= k < p ==> IsAsciiSpace(b[k])) && SpaceAt(b, p, |b|) == 0
    ensures SkipSpace(b, i) == p
    decreases p - i
  {
    if i < p {
      SkipSpaceTo(b, i + 1, p);
    }
  }

  lemma {:induction false} BackSpaceTo(b: bytes, lo: nat, r: nat, j: nat)
    requires lo <= r <= j <= |b| && (forall k :: r <= k < j ==> IsAsciiSpace(b[k])) && SpaceBefore(b, lo, r) == 0
    ensures BackSpace(b, lo, j) == r
    decreases j
  {
    if r < j {
      BackSpaceTo(b, lo, r, j - 1);
    }
  }

  lemma TrimSpaceAround(b: bytes, n: nat, m: nat)
    requires n < m <= |b| && AllSpace(b[..n]) && AllSpace(b[m..]) && Bare(b[n..m])
    ensures TrimSpace(b) == b[n..m]
  {
    assert forall k :: 0 <= k < n ==> b[k] == b[..n][k];
    assert forall k :: m <= k < |b| ==> b[k] == b[m..][k - m];
    SpaceOfPart(b, n, m);
    SpaceStaysInside(b, n, m);
    SkipSpaceTo(b, 0, n);
    BackSpaceTo(b, n, m, |b|);
  }

  lemma TrimSpaceOnly(b: bytes)
    requires AllSpace(b)
    ensures TrimSpace(b) == []
  {
    SkipSpaceTo(b, 0, |b|);
  }

  lemma TrimSpacePadded(lead: bytes, v: bytes, tail: bytes)
    requires AllSpace(lead) && AllSpace(tail) && Bare(v)
    ensures TrimSpace(lead + v + tail) == v
  {
    var b, n, m := lead + v + tail, |lead|, |lead| + |v|;
    if |v| == 0 {
      assert b == lead + tail;
      TrimSpaceOnly(b);
    } else {
      assert b[..n] == lead && b[n..m] == v && b[m..] == tail;
      TrimSpaceAround(b, n, m);
    }
  }

  lemma TrimSpaceIsBare(b: bytes)
    ensures Bare(TrimSpace(b))
  {
    var i := SkipSpace(b, 0);
    SpaceOfPart(b, i, BackSpace(b, i, |b|));
  }

  /** The two ways to trim differ exactly on values that keep white space at an end when only spaces,
      tabs and trailing carriage returns are stripped. */
  lemma TrimsAgreeIff(b: bytes)
    ensures TrimSpace(b) == TrimOWS(b) <==> Bare(TrimOWS(b))
  {
    TrimSpaceIsBare(b);
    if Bare(TrimOWS(b)) {
      var i := SkipOWS(b, 0);
      var r := BackOWS(b, i, |b|, true);
      assert b[..i] + b[i..r] + b[r..] == b;
      TrimSpacePadded(b[..i], b[i..r], b[r..]);
    }
  }
}
