/** The header names that the request parser knows, and how it compares them (knownHeader in header.go). */
module KnownHeaders {
  import opened Bytes
  import opened Text

  const MAX_HEADERS := 64

  // ---------------------------------------------------------------- known names

  datatype Known = Unknown | Host | ContentType | ContentLength | Connection | TransferEncoding | Expectation | Upgrade | Http2Settings

  /** The name of a known header, in lower case. */
  function Name(kind: Known): bytes {
    match kind
    case Unknown => []
    case Host => Ascii("host")
    case ContentType => Ascii("content-type")
    case ContentLength => Ascii("content-length")
    case Connection => Ascii("connection")
    case TransferEncoding => Ascii("transfer-encoding")
    case Expectation => Ascii("expect")
    case Upgrade => Ascii("upgrade")
    case Http2Settings => Ascii("http2-settings")
  }

  /** The known header named k, compared without regard to ASCII case. */
  function Kind(k: bytes): Known {
    if EqualFold(k, Name(Host)) then Host
    else if EqualFold(k, Name(ContentType)) then ContentType
    else if EqualFold(k, Name(ContentLength)) then ContentLength
    else if EqualFold(k, Name(Connection)) then Connection
    else if EqualFold(k, Name(TransferEncoding)) then TransferEncoding
    else if EqualFold(k, Name(Expectation)) then Expectation
    else if EqualFold(k, Name(Upgrade)) then Upgrade
    else if EqualFold(k, Name(Http2Settings)) then Http2Settings
    else Unknown
  }

  /** c | 0x20 */
  function Or20(c: byte): byte {
    if (c / 32) % 2 == 1 then c else c + 32
  }

  predicate LowerN(b: bytes, s: bytes)
    requires |b| >= |s|
  {
    forall i :: 0 <= i < |s| ==> Or20(b[i]) == s[i]
  }

  /** A lower-case name: letters, digits and hyphens. */
  predicate LowerName(s: bytes) {
    forall i :: 0 <= i < |s| ==> 97 <= s[i] <= 122 || s[i] == 45 || 48 <= s[i] <= 57
  }

  predicate NoControl(b: bytes) {
    forall i :: 0 <= i < |b| ==> b[i] >= 0x20 || b[i] == HTAB
  }

  /** Setting the bit is folding the case, for a name without control bytes. */
  lemma LowerNIsFold(b: bytes, s: bytes)
    requires |b| == |s| && NoControl(b) && LowerName(s)
    ensures LowerN(b, s) <==> EqualFold(b, s)
  {
    forall i | 0 <= i < |b| ensures Or20(b[i]) == s[i] <==> Lower(b[i]) == Lower(s[i]) {
      Or20IsLower(b[i], s[i]);
    }
  }

  lemma Or20IsLower(c: byte, x: byte)
    requires (c >= 0x20 || c == HTAB) && (97 <= x <= 122 || x == 45 || 48 <= x <= 57)
    ensures Or20(c) == x <==> Lower(c) == Lower(x)
  {
  }

  function NameLength(kind: Known): nat {
    match kind
    case Unknown => 0
    case Host => 4
    case ContentType => 12
    case ContentLength => 14
    case Connection => 10
    case TransferEncoding => 17
    case Expectation => 6
    case Upgrade => 7
    case Http2Settings => 14
  }

  lemma NamesHaveLength(kind: Known)
    ensures |Name(kind)| == NameLength(kind)
  {
  }

  lemma NamesAreLower(kind: Known)
    ensures LowerName(Name(kind))
  {
    if kind in {Host, ContentType, Connection, Upgrade} { SomeNamesAreLower(kind); } else { OtherNamesAreLower(kind); }
  }

  lemma SomeNamesAreLower(kind: Known)
    requires kind in {Host, ContentType, Connection, Upgrade}
    ensures LowerName(Name(kind))
  {
  }

  lemma OtherNamesAreLower(kind: Known)
    requires kind !in {Host, ContentType, Connection, Upgrade}
    ensures LowerName(Name(kind))
  {
  }

  method Named(k: bytes, kind: Known) returns (r: bool)
    requires ValidToken(k) && |k| == NameLength(kind)
    ensures r <==> EqualFold(k, Name(kind))
  {
    NamesHaveLength(kind);
    NamesAreLower(kind);
    LowerNIsFold(k, Name(kind));
    r := LowerN(k, Name(kind));
  }

  lemma OtherLength(k: bytes, kind: Known)
    requires |k| != NameLength(kind)
    ensures !EqualFold(k, Name(kind))
  {
    NamesHaveLength(kind);
  }

  /** knownHeader: a switch on the length, then comparisons with the case bit set. */
  method KnownHeader(k: bytes) returns (kind: Known)
    requires ValidToken(k)
    ensures kind == Kind(k)
  {
    forall other | |k| != NameLength(other) ensures !EqualFold(k, Name(other)) { OtherLength(k, other); }
    match |k| {
      case 4 => kind := Host;
      case 10 => kind := Connection;
      case 12 => kind := ContentType;
      case 6 => kind := Expectation;
      case 7 => kind := Upgrade;
      case 14 => kind := ContentLength;
      case 17 => kind := TransferEncoding;
      case _ => return Unknown;
    }
    var found := Named(k, kind);
    if found {
      return;
    }
    if |k| == 14 {
      found := Named(k, Http2Settings);
      return if found then Http2Settings else Unknown;
    }
    return Unknown;
  }
}
