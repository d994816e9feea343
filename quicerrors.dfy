/** The MCP-over-QUIC error vocabulary (pkg/mcpquic/errors.go): the stream
    and connection application error codes (QUIC application error codes,
    section 20.2 of RFC 9000), the sentinel errors, and ConnectionError. */
module QuicErrors {
  import opened Wrappers
  import opened Text

  datatype StreamCode = StreamNoError | ProtocolConfusion | MessageTooLarge

  datatype ConnCode = ConnNoError | UnsupportedAlpn | ProtocolViolation

  function StreamCodeValue(c: StreamCode): nat {
    match c
    case StreamNoError => 0x00
    case ProtocolConfusion => 0x02
    case MessageTooLarge => 0x03
  }

  function ConnCodeValue(c: ConnCode): nat {
    match c
    case ConnNoError => 0x00
    case UnsupportedAlpn => 0x01
    case ProtocolViolation => 0x03
  }

  /** The stream code a wire value denotes, if any: the inverse of
      StreamCodeValue, so no two stream codes share a value. */
  function StreamCodeOf(v: nat): (r: Option<StreamCode>)
    ensures r.Some? ==> StreamCodeValue(r.value) == v
    ensures forall c :: StreamCodeValue(c) == v ==> r == Some(c)
  {
    if v == 0x00 then Some(StreamNoError)
    else if v == 0x02 then Some(ProtocolConfusion)
    else if v == 0x03 then Some(MessageTooLarge)
    else None
  }

  /** The connection code a wire value denotes, if any. */
  function ConnCodeOf(v: nat): (r: Option<ConnCode>)
    ensures r.Some? ==> ConnCodeValue(r.value) == v
    ensures forall c :: ConnCodeValue(c) == v ==> r == Some(c)
  {
    if v == 0x00 then Some(ConnNoError)
    else if v == 0x01 then Some(UnsupportedAlpn)
    else if v == 0x03 then Some(ProtocolViolation)
    else None
  }

  /** The three sentinel errors. */
  datatype Sentinel = ErrInvalidMagicBytes | ErrUnsupportedAlpn | ErrConnectionClosed

  function SentinelMessage(s: Sentinel): (msg: string)
    ensures |msg| > 0
  {
    match s
    case ErrInvalidMagicBytes => "invalid magic bytes: expected MCP1"
    case ErrUnsupportedAlpn => "ALPN negotiation failed: horos-mcp-v1 not selected"
    case ErrConnectionClosed => "QUIC connection closed"
  }

  /** Distinct sentinels carry distinct messages. */
  lemma SentinelsDistinct(a: Sentinel, b: Sentinel)
    requires a != b
    ensures SentinelMessage(a) != SentinelMessage(b)
  {
    assert SentinelMessage(a)[0] != SentinelMessage(b)[0] || |SentinelMessage(a)| != |SentinelMessage(b)|;
  }

  /** A Go error value as far as this package inspects one: a sentinel, or any
      other error with its message. */
  datatype GoError = Is(sentinel: Sentinel) | Other(message: string)

  function ErrorMessage(e: GoError): string {
    match e
    case Is(s) => SentinelMessage(s)
    case Other(m) => m
  }

  /** A connection-level failure; the code is any application error code. */
  datatype ConnectionError = ConnectionError(remoteAddr: string, code: nat, err: GoError)

  /** ConnectionError.Error: "connection <addr> error code 0x<%02x>: <err>". */
  function ConnectionErrorString(e: ConnectionError): (s: string)
    ensures |s| == 11 + |e.remoteAddr| + 14 + |Hex02(e.code)| + 2 + |ErrorMessage(e.err)|
    ensures s[..11] == "connection " && s[11..11 + |e.remoteAddr|] == e.remoteAddr
    ensures s[11 + |e.remoteAddr|..11 + |e.remoteAddr| + 14] == " error code 0x"
    ensures s[11 + |e.remoteAddr| + 14..11 + |e.remoteAddr| + 14 + |Hex02(e.code)|] == Hex02(e.code)
    ensures s[|s| - |ErrorMessage(e.err)|..] == ErrorMessage(e.err)
  {
    "connection " + e.remoteAddr + " error code 0x" + Hex02(e.code) + ": " + ErrorMessage(e.err)
  }

  /** Unwrap: the wrapped error. */
  function Unwrap(e: ConnectionError): (inner: GoError)
    ensures |ErrorMessage(inner)| < |ConnectionErrorString(e)|
    ensures ConnectionErrorString(e)[|ConnectionErrorString(e)| - |ErrorMessage(inner)|..] == ErrorMessage(inner)
  {
    e.err
  }

  /** The hex digits of the rendered code read back as the code. */
  lemma ConnectionErrorCodeReadsBack(e: ConnectionError)
    ensures var s := ConnectionErrorString(e);
            var start := 11 + |e.remoteAddr| + 14;
            HexValue(s[start..start + |Hex02(e.code)|]) == e.code
  {
    Hex02Value(e.code);
  }
}
