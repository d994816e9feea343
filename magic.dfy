/** The 4-byte "MCP1" handshake that opens every MCP-over-QUIC stream
    (pkg/mcpquic/magic.go, with the constants of pkg/mcpquic/config.go). */
module Magic {
  import opened Wrappers
  import opened Text
  import opened QuicErrors
  import opened Streams

  /** "MCP1". */
  const MagicBytesMcp: seq<byte> := [0x4D, 0x43, 0x50, 0x31]

  const AlpnProtocolMcp: string := "horos-mcp-v1"

  /** The handshake failures: too few bytes to read, the wrong four bytes
      (wrapping ErrInvalidMagicBytes), or a failed write. */
  datatype MagicError = ReadMagicFailed | BadMagic(got: seq<byte>) | WriteMagicFailed

  /** The sentinel a handshake failure wraps, if any. */
  function Wrapped(e: MagicError): (s: Option<Sentinel>)
    ensures s.Some? <==> e.BadMagic?
    ensures s.Some? ==> s.value == ErrInvalidMagicBytes
  {
    if e.BadMagic? then Some(ErrInvalidMagicBytes) else None
  }

  /** The outcome of validating a stream's input and the bytes it leaves unread. */
  function MagicCheck(input: seq<byte>): (r: (Option<MagicError>, seq<byte>))
    ensures r.0.None? <==> |input| >= 4 && input[..4] == MagicBytesMcp
    ensures |input| < 4 <==> r.0 == Some(ReadMagicFailed)
    ensures |input| >= 4 ==> r.1 == input[4..]
    ensures r.0.Some? && r.0.value.BadMagic? ==> r.0.value.got == input[..4] != MagicBytesMcp
  {
    if |input| < 4 then (Some(ReadMagicFailed), [])
    else if input[..4] == MagicBytesMcp then (None, input[4..])
    else (Some(BadMagic(input[..4])), input[4..])
  }

  /** ValidateMagicBytes: reads four bytes and compares them with "MCP1". */
  method ValidateMagicBytes(r: Stream) returns (err: Option<MagicError>)
    modifies r`unread
    ensures (err, r.unread) == MagicCheck(old(r.unread))
  {
    var magic, ok := r.ReadFull(4);
    if !ok {
      return Some(ReadMagicFailed);
    }
    if magic != MagicBytesMcp {
      return Some(BadMagic(magic));
    }
    return None;
  }

  /** SendMagicBytes: writes "MCP1", or reports the failed write. */
  method SendMagicBytes(w: Stream) returns (err: Option<MagicError>)
    modifies w`written
    ensures err.None? <==> !w.writeFails
    ensures err.Some? ==> err.value == WriteMagicFailed
    ensures w.written == if err.None? then old(w.written) + MagicBytesMcp else old(w.written)
  {
    var ok := w.Write(MagicBytesMcp);
    if !ok {
      return Some(WriteMagicFailed);
    }
    return None;
  }

  /** What SendMagicBytes puts in front of a stream validates, and leaves the
      rest of the stream unread. */
  lemma SentMagicValidates(rest: seq<byte>)
    ensures MagicCheck(MagicBytesMcp + rest) == (None, rest)
  {
    assert (MagicBytesMcp + rest)[..4] == MagicBytesMcp;
    assert (MagicBytesMcp + rest)[4..] == rest;
  }

  /** The outcome depends on the first four bytes only. */
  lemma MagicCheckPrefix(a: seq<byte>, b: seq<byte>)
    requires |a| >= 4
    ensures MagicCheck(a + b).0 == MagicCheck(a).0
    ensures MagicCheck(a + b).1 == MagicCheck(a).1 + b
  {
    assert (a + b)[..4] == a[..4];
    assert (a + b)[4..] == a[4..] + b;
  }
}
