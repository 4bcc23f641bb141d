/** The values of the headers that decide framing and persistence: token lists, Connection,
    Transfer-Encoding and Host (sections 5 and 6 of RFC 9112; header.go). */
module HeaderValues {
  import opened Bytes
  import opened Options
  import opened Text
  import Decimal
  import opened RequestLine
  import opened KnownHeaders

  // ---------------------------------------------------------------- lists of tokens

  /** The parts of a comma-separated list. */
  function Commas(v: bytes): (parts: seq<bytes>)
    ensures |parts| > 0
    decreases |v|
  {
    var i := IndexOf(v, COMMA);
    if i < 0 then [v] else [v[..i]] + Commas(v[i + 1..])
  }

  predicate HasToken(v: bytes, token: bytes) {
    exists i :: 0 <= i < |Commas(v)| && EqualFold(TrimOWS(Commas(v)[i]), token)
  }

  lemma NoTokenInNothing(token: bytes)
    requires token != []
    ensures !HasToken([], token)
  {
    assert Commas([]) == [[]];
  }

  lemma TokenStep(v: bytes, token: bytes)
    ensures var i := IndexOf(v, COMMA);
      HasToken(v, token) <==> EqualFold(TrimOWS(if i < 0 then v else v[..i]), token) || (i >= 0 && HasToken(v[i + 1..], token))
  {
    var i := IndexOf(v, COMMA);
    var parts := Commas(v);
    assert parts[0] == if i < 0 then v else v[..i];
    if i >= 0 {
      var rest := Commas(v[i + 1..]);
      assert parts == [v[..i]] + rest;
      assert forall k :: 0 <= k < |rest| ==> parts[k + 1] == rest[k];
      if HasToken(v, token) {
        var k :| 0 <= k < |parts| && EqualFold(TrimOWS(parts[k]), token);
        assert k > 0 ==> rest[k - 1] == parts[k];
      }
      if HasToken(v[i + 1..], token) {
        var k :| 0 <= k < |rest| && EqualFold(TrimOWS(rest[k]), token);
        assert parts[k + 1] == rest[k];
      }
    }
  }

  /** hasHeaderToken */
  method HasHeaderToken(value: bytes, token: bytes) returns (has: bool)
    requires token != []
    ensures has <==> HasToken(value, token)
  {
    var v := value;
    while |v| > 0
      invariant HasToken(value, token) <==> HasToken(v, token)
      decreases |v|
    {
      TokenStep(v, token);
      var end := IndexOf(v, COMMA);
      var part := v;
      if end < 0 {
        v := [];
        NoTokenInNothing(token);
      } else {
        part, v := v[..end], v[end + 1..];
      }
      if EqualFold(TrimOWS(part), token) {
        return true;
      }
    }
    NoTokenInNothing(token);
    return false;
  }

  // ---------------------------------------------------------------- Connection

  const CLOSE := Ascii("close")
  const KEEP_ALIVE := Ascii("keep-alive")

  /** What a Connection value decides, read as a list of tokens. */
  function Persists(keep: bool, proto: bytes, v: bytes): bool {
    if HasToken(v, CLOSE) then false else if proto == HTTP10 && HasToken(v, KEEP_ALIVE) then true else keep
  }

  lemma TrimmedIsShorter(v: bytes)
    ensures |TrimOWS(v)| <= |v| && (|TrimOWS(v)| == |v| ==> TrimOWS(v) == v)
  {
    if |TrimOWS(v)| == |v| { assert v[0..|v|] == v; }
  }

  lemma {:induction false} PartsAreShort(v: bytes, k: nat)
    requires k < |Commas(v)|
    ensures |Commas(v)[k]| <= |v| && (|Commas(v)[k]| == |v| ==> Commas(v)[k] == v)
    decreases |v|
  {
    var i := IndexOf(v, COMMA);
    if i >= 0 && k > 0 { PartsAreShort(v[i + 1..], k - 1); }
  }

  /** A list no longer than the token holds it only as a whole. */
  lemma WholeToken(v: bytes, token: bytes)
    requires |v| <= |token| && token != []
    ensures HasToken(v, token) ==> EqualFold(v, token)
  {
    if HasToken(v, token) {
      var k :| 0 <= k < |Commas(v)| && EqualFold(TrimOWS(Commas(v)[k]), token);
      TrimmedIsShorter(Commas(v)[k]);
      PartsAreShort(v, k);
    }
  }

  /** A word without commas and blanks is a list of one token. */
  lemma WordIsToken(v: bytes, token: bytes)
    requires EqualFold(v, token) && |v| > 0 && LowerName(token)
    ensures HasToken(v, token)
  {
    assert COMMA !in v by { assert forall i :: 0 <= i < |v| ==> Lower(v[i]) == token[i]; }
    assert Commas(v) == [v];
    assert [] + v + [] == v && Tight(v, true) by {
      assert Lower(v[0]) == token[0] && Lower(v[|v| - 1]) == token[|v| - 1];
    }
    TrimPadded([], v, [], true);
    assert EqualFold(TrimOWS(Commas(v)[0]), token);
  }

  lemma WordsAreLower()
    ensures LowerName(CLOSE) && LowerName(KEEP_ALIVE) && |CLOSE| == 5 && |KEEP_ALIVE| == 10
  {
  }

  /** A value that is one word holds no other token. */
  lemma OneWord(v: bytes, word: bytes, token: bytes)
    requires EqualFold(v, word) && |v| > 0 && LowerName(word) && |token| != |word|
    ensures !HasToken(v, token)
  {
    assert COMMA !in v by { assert forall i :: 0 <= i < |v| ==> Lower(v[i]) == word[i]; }
    assert Commas(v) == [v];
    assert [] + v + [] == v && Tight(v, true) by {
      assert Lower(v[0]) == word[0] && Lower(v[|v| - 1]) == word[|v| - 1];
    }
    TrimPadded([], v, [], true);
  }

  /** applyConnectionHeader: the short cuts for "close" and "keep-alive" decide what the token scan
      would. */
  method ApplyConnection(keep: bool, proto: bytes, v: bytes) returns (r: bool)
    requires NoControl(v)
    ensures r == Persists(keep, proto, v)
  {
    WordsAreLower();
    if |v| == 5 {
      LowerNIsFold(v, CLOSE);
      WholeToken(v, CLOSE);
      WholeToken(v, KEEP_ALIVE);
      if LowerN(v, CLOSE) {
        WordIsToken(v, CLOSE);
        return false;
      }
      return keep;
    }
    if |v| == 10 {
      LowerNIsFold(v, KEEP_ALIVE);
      if LowerN(v, KEEP_ALIVE) {
        WordIsToken(v, KEEP_ALIVE);
        OneWord(v, KEEP_ALIVE, CLOSE);
        return if proto == HTTP10 then true else keep;
      }
    }
    var closes := HasHeaderToken(v, CLOSE);
    if closes {
      return false;
    }
    if proto == HTTP10 {
      var keeps := HasHeaderToken(v, KEEP_ALIVE);
      return if keeps then true else keep;
    }
    return keep;
  }

  // ---------------------------------------------------------------- Transfer-Encoding

  const CHUNKED := Ascii("chunked")

  /** A list is refused if one of its parts is bad; otherwise: is it a single part that is hit? */
  function Judge(good: bytes -> bool, hit: bytes -> bool, parts: seq<bytes>): Option<bool>
    requires |parts| > 0
  {
    if exists i :: 0 <= i < |parts| && !good(parts[i]) then None else Some(|parts| == 1 && hit(parts[0]))
  }

  /** None for a malformed list of codings; otherwise whether it is exactly "chunked". */
  function Coding(v: bytes): Option<bool> {
    Judge(part => ValidToken(TrimOWS(part)), part => EqualFold(TrimOWS(part), CHUNKED), Commas(v))
  }

  /** The same by scanning what is left of the list. */
  function Scan(good: bytes -> bool, hit: bytes -> bool, rest: bytes, count: nat): Option<bool>
    decreases |rest|
  {
    var end := IndexOf(rest, COMMA);
    var part := if end < 0 then rest else rest[..end];
    if !good(part) then None else if end < 0 then Some(count == 0 && hit(part)) else Scan(good, hit, rest[end + 1..], count + 1)
  }

  lemma JudgeMore(good: bytes -> bool, hit: bytes -> bool, first: bytes, more: seq<bytes>)
    requires |more| > 0
    ensures Judge(good, hit, [first] + more) == if !good(first) || Judge(good, hit, more).None? then None else Some(false)
  {
    var parts := [first] + more;
    if i :| 0 <= i < |more| && !good(more[i]) { assert !good(parts[i + 1]); }
    if good(first) {
      if i :| 0 <= i < |parts| && !good(parts[i]) { assert parts[i] == more[i - 1]; }
    } else {
      assert !good(parts[0]);
    }
  }

  lemma {:induction false} ScanReadsAllParts(good: bytes -> bool, hit: bytes -> bool, rest: bytes, count: nat)
    ensures var r := Judge(good, hit, Commas(rest));
      Scan(good, hit, rest, count) == if count > 0 && r.Some? then Some(false) else r
    decreases |rest|
  {
    var end := IndexOf(rest, COMMA);
    if end >= 0 {
      JudgeMore(good, hit, rest[..end], Commas(rest[end + 1..]));
      ScanReadsAllParts(good, hit, rest[end + 1..], count + 1);
    }
  }

  /** parseTransferCoding; a malformed list is None. */
  method ParseTransferCoding(v: bytes) returns (r: Option<bool>)
    ensures r == Coding(v)
  {
    var good := (part: bytes) => ValidToken(TrimOWS(part));
    var hit := (part: bytes) => EqualFold(TrimOWS(part), CHUNKED);
    r := ScanList(good, hit, v);
    ScanReadsAllParts(good, hit, v, 0);
  }

  method ScanList(good: bytes -> bool, hit: bytes -> bool, v: bytes) returns (r: Option<bool>)
    ensures r == Scan(good, hit, v, 0)
  {
    var count, rest := 0, v;
    while true
      invariant Scan(good, hit, v, 0) == Scan(good, hit, rest, count)
      decreases |rest|
    {
      var end := IndexOf(rest, COMMA);
      var part := if end < 0 then rest else rest[..end];
      if !good(part) {
        return None;
      }
      count := count + 1;
      if end < 0 {
        return Some(count == 1 && hit(part));
      }
      rest := rest[end + 1..];
    }
  }

  // ---------------------------------------------------------------- Host

  predicate ValidPort(p: bytes) {
    0 < |p| <= 5 && Decimal.AllDigits(p) && Decimal.Value(p) <= 65535
  }

  predicate HostByte(c: byte) {
    c >= 0x21 && c != 0x7f && c !in Ascii(",/\\@#?")
  }

  predicate ValidHost(h: bytes) {
    && 0 < |h| <= 255 && (forall i :: 0 <= i < |h| ==> HostByte(h[i]))
    && if h[0] == 91 then
         var close := IndexOf(h, 93);
         close > 1 && (close + 1 == |h| || (h[close + 1] == COLON && ValidPort(h[close + 2..])))
       else
         var colon := IndexOf(h, COLON);
         91 !in h && 93 !in h && (colon < 0 || (colon > 0 && COLON !in h[colon + 1..] && ValidPort(h[colon + 1..])))
  }
}
