/** A bidirectional QUIC stream as the MCP handler uses it: a reader over the
    bytes the peer sent and a writer that appends to what the peer receives.
    The stream is given its whole input up front; a read past the end is the
    end of the stream. */
module Streams {
  import opened Wrappers
  import opened Text
  import opened QuicErrors

  const NL: byte := 10

  /** The position of the first `b` in `s`. */
  function FirstIndex(s: seq<byte>, b: byte): (i: nat)
    requires b in s
    ensures i < |s| && s[i] == b && b !in s[..i]
  {
    if s[0] == b then 0
    else
      var j := FirstIndex(s[1..], b);
      assert s[1..][..j] == s[1..j + 1];
      j + 1
  }

  /** bufio.Reader.ReadBytes('\n') with the delimiter dropped: the bytes up to
      the first '\n' and what follows it; without a '\n' the rest of the input
      is consumed and there is no line. */
  function NextLine(input: seq<byte>): (r: (Option<seq<byte>>, seq<byte>))
    ensures NL in input <==> r.0.Some?
    ensures r.0.Some? ==> input == r.0.value + [NL] + r.1 && NL !in r.0.value
    ensures r.0.None? ==> r.1 == []
  {
    if NL !in input then (None, [])
    else
      var i := FirstIndex(input, NL);
      assert input == input[..i] + [NL] + input[i + 1..];
      (Some(input[..i]), input[i + 1..])
  }

  class Stream {
    var unread: seq<byte>
    var written: seq<byte>
    const writeFails: bool
    var readCancel: Option<StreamCode>
    var writeCancel: Option<StreamCode>
    var closed: bool

    constructor (input: seq<byte>, writeFails: bool)
      ensures unread == input && written == [] && this.writeFails == writeFails
      ensures readCancel == None && writeCancel == None && !closed
    {
      unread := input;
      written := [];
      this.writeFails := writeFails;
      readCancel := None;
      writeCancel := None;
      closed := false;
    }

    /** io.ReadFull: exactly n bytes, or a failure after consuming what there was. */
    method ReadFull(n: nat) returns (data: seq<byte>, ok: bool)
      modifies this`unread
      ensures ok <==> |old(unread)| >= n
      ensures ok ==> data == old(unread)[..n] && unread == old(unread)[n..]
      ensures !ok ==> data == old(unread) && unread == []
    {
      if |unread| >= n {
        data, ok := unread[..n], true;
        unread := unread[n..];
      } else {
        data, ok := unread, false;
        unread := [];
      }
    }

    /** ReadBytes('\n'), scanning the buffered input for the delimiter. */
    method ReadLine() returns (line: Option<seq<byte>>)
      modifies this`unread
      ensures (line, unread) == NextLine(old(unread))
    {
      var i := 0;
      while i < |unread| && unread[i] != NL
        invariant 0 <= i <= |unread|
        invariant NL !in unread[..i]
      {
        i := i + 1;
      }
      if i == |unread| {
        assert unread[..i] == unread;
        line := None;
        unread := [];
      } else {
        assert unread == unread[..i] + [NL] + unread[i + 1..];
        line := Some(unread[..i]);
        unread := unread[i + 1..];
      }
    }

    /** Write: all of the data, or nothing when the stream's writes fail. */
    method Write(data: seq<byte>) returns (ok: bool)
      modifies this`written
      ensures ok == !writeFails
      ensures written == if ok then old(written) + data else old(written)
    {
      if writeFails {
        return false;
      }
      written := written + data;
      return true;
    }

    method CancelRead(code: StreamCode)
      modifies this`readCancel
      ensures readCancel == Some(code)
    {
      readCancel := Some(code);
    }

    method CancelWrite(code: StreamCode)
      modifies this`writeCancel
      ensures writeCancel == Some(code)
    {
      writeCancel := Some(code);
    }

    method Close()
      modifies this`closed
      ensures closed
    {
      closed := true;
    }
  }
}
