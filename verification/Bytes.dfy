/** Byte strings and the scanning helpers that the parsers and writers share. */
module Bytes {

  newtype byte = x: int | 0 <= x < 256

  type bytes = seq<byte>

  /** A header or trailer field. */
  datatype Header = Header(key: bytes, value: bytes)

  /** The largest 64-bit signed integer. */
  const MAX_INT := 0x7fff_ffff_ffff_ffff

  const HTAB: byte := 9
  const LF: byte := 10
  const CR: byte := 13
  const SP: byte := 32
  const COMMA: byte := 44
  const COLON: byte := 58
  const SEMICOLON: byte := 59
  const CRLF: bytes := [CR, LF]

  /** The bytes of an ASCII literal. */
  function Ascii(s: string): (b: bytes)
    requires forall i :: 0 <= i < |s| ==> s[i] < 128 as char
    ensures |b| == |s| && forall i :: 0 <= i < |s| ==> b[i] as int == s[i] as int
  {
    seq(|s|, i requires 0 <= i < |s| => s[i] as byte)
  }

  /** The first position of c, or -1. */
  function IndexOf(b: bytes, c: byte): (i: int)
    ensures -1 <= i < |b|
    ensures i >= 0 ==> b[i] == c && c !in b[..i]
    ensures i < 0 <==> c !in b
  {
    IndexFrom(b, c, 0)
  }

  function IndexFrom(b: bytes, c: byte, start: nat): (i: int)
    requires start <= |b| && c !in b[..start]
    ensures -1 <= i < |b|
    ensures i >= 0 ==> b[i] == c && c !in b[..i]
    ensures i < 0 <==> c !in b
    decreases |b| - start
  {
    if start == |b| then assert b[..start] == b; -1
    else if b[start] == c then start
    else assert b[..start + 1] == b[..start] + [b[start]]; IndexFrom(b, c, start + 1)
  }

  /** The first position is determined by what it promises. */
  lemma IndexIs(b: bytes, c: byte, i: nat)
    requires i < |b| && b[i] == c && c !in b[..i]
    ensures IndexOf(b, c) == i
  {
    assert c in b;
    assert forall j :: 0 <= j < i ==> b[j] == b[..i][j];
  }

  /** a is the end of w. */
  predicate IsSuffix(a: bytes, w: bytes) {
    |a| <= |w| && w[|w| - |a|..] == a
  }

  lemma SuffixOfSuffix(a: bytes, b: bytes, c: bytes)
    requires IsSuffix(a, b) && IsSuffix(b, c)
    ensures IsSuffix(a, c)
  {
    assert c[|c| - |a|..] == c[|c| - |b|..][|b| - |a|..];
  }

  lemma DropIsSuffix(w: bytes, n: nat)
    requires n <= |w|
    ensures IsSuffix(w[n..], w)
  {
  }

  datatype Cut = Whole | Pieces(before: bytes, after: bytes)

  /** What is before and after the first c. */
  function CutAt(b: bytes, c: byte): Cut {
    var i := IndexOf(b, c);
    if i < 0 then Whole else Pieces(b[..i], b[i + 1..])
  }

  /** Cutting undoes joining with c. */
  lemma CutOfJoin(a: bytes, c: byte, b: bytes)
    requires c !in a
    ensures CutAt(a + ([c] + b), c) == Pieces(a, b) && IndexOf(a + ([c] + b), c) == |a|
  {
    var w := a + ([c] + b);
    assert w[..|a|] == a && w[|a|] == c && w[|a| + 1..] == b;
    IndexIs(w, c, |a|);
  }

  /** Joining undoes cutting. */
  lemma JoinOfCut(b: bytes, c: byte)
    ensures var p := CutAt(b, c); p.Pieces? ==> b == p.before + ([c] + p.after) && c !in p.before
  {
  }
}
