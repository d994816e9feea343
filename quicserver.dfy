/** One MCP-over-QUIC connection from acceptance to the end of its session,
    the standalone listener's accept loop, and the session object
    (pkg/mcpquic/server.go). The MCP server's message handler and the JSON
    encoder are parameters; random bytes are given. */
module QuicServer {
  import opened Wrappers
  import opened Text
  import opened QuicErrors
  import opened Streams
  import opened Magic
  import opened Kit

  // ---- session identifiers ----

  /** "quic_" followed by the hex of the random bytes. */
  function SessionIdOf(randomBytes: seq<byte>): (id: string)
    requires |randomBytes| == 4
    ensures |id| == 13 && id[..5] == "quic_"
    ensures forall i :: 5 <= i < 13 ==> IsLowerHex(id[i])
  {
    "quic_" + HexEncode(randomBytes)
  }

  /** Different random bytes give different session ids. */
  lemma SessionIdInjective(a: seq<byte>, b: seq<byte>)
    requires |a| == 4 && |b| == 4 && SessionIdOf(a) == SessionIdOf(b)
    ensures a == b
  {
    assert SessionIdOf(a)[5..] == HexEncode(a);
    assert SessionIdOf(b)[5..] == HexEncode(b);
    HexEncodeInjective(a, b);
  }

  // ---- line framing ----

  /** The complete lines of an input in arrival order, each without its '\n';
      a trailing fragment without '\n' is not a line. */
  function Lines(input: seq<byte>): (ls: seq<seq<byte>>)
    ensures forall i :: 0 <= i < |ls| ==> NL !in ls[i]
    decreases |input|
  {
    match NextLine(input)
    case (None, _) => []
    case (Some(l), rest) => [l] + Lines(rest)
  }

  /** Messages written one per line. */
  function Frame(msgs: seq<seq<byte>>): seq<byte>
    decreases |msgs|
  {
    if |msgs| == 0 then [] else msgs[0] + [NL] + Frame(msgs[1..])
  }

  /** Splitting framed messages into lines gives the messages back, whatever
      unterminated fragment follows them. */
  lemma {:induction false} LinesOfFrame(msgs: seq<seq<byte>>, fragment: seq<byte>)
    requires forall i :: 0 <= i < |msgs| ==> NL !in msgs[i]
    requires NL !in fragment
    ensures Lines(Frame(msgs) + fragment) == msgs
    decreases |msgs|
  {
    var input := Frame(msgs) + fragment;
    if |msgs| == 0 {
      assert input == fragment;
    } else {
      var m := msgs[0];
      var tail := Frame(msgs[1..]) + fragment;
      assert input == m + [NL] + tail;
      LineSplitsAtFirstNl(m, tail);
      LinesOfFrame(msgs[1..], fragment);
    }
  }

  /** A line without '\n' followed by '\n' is the next line. */
  lemma LineSplitsAtFirstNl(m: seq<byte>, tail: seq<byte>)
    requires NL !in m
    ensures NextLine(m + [NL] + tail) == (Some(m), tail)
  {
    var input := m + [NL] + tail;
    assert input[|m|] == NL;
    var r := NextLine(input);
    var l := r.0.value;
    assert l == input[..|l|] == m;
    assert r.1 == input[|l| + 1..] == tail;
  }

  // ---- the read loop ----

  /** The message handler: given the request context and a message, a
      response or none (a notification). */
  type MessageHandler<!R> = (Context, seq<byte>) -> Option<R>

  /** The JSON encoder: a document, or a failure. */
  type Encoder<!R> = R -> Option<seq<byte>>

  /** The messages the loop hands to the handler and the bytes it writes back. */
  datatype LoopResult = LoopResult(dispatched: seq<seq<byte>>, replies: seq<byte>)

  /** The read loop over the lines of a stream: empty lines are skipped;
      every other line goes to the handler in order; a response that encodes
      is written followed by '\n'; a failed write ends the loop. */
  function LoopOf<R>(lines: seq<seq<byte>>, ctx: Context, writeFails: bool,
                     handle: MessageHandler<R>, encode: Encoder<R>): (r: LoopResult)
    ensures |r.dispatched| <= |lines|
    decreases |lines|
  {
    if |lines| == 0 then LoopResult([], [])
    else
      var rest := LoopOf(lines[1..], ctx, writeFails, handle, encode);
      if |lines[0]| == 0 then rest
      else
        var reply := if handle(ctx, lines[0]).Some? then encode(handle(ctx, lines[0]).value) else None;
        if reply.None? then LoopResult([lines[0]] + rest.dispatched, rest.replies)
        else if writeFails then LoopResult([lines[0]], [])
        else LoopResult([lines[0]] + rest.dispatched, reply.value + [NL] + rest.replies)
  }

  /** The non-empty lines, in order. */
  function NonEmpty(lines: seq<seq<byte>>): seq<seq<byte>>
    decreases |lines|
  {
    if |lines| == 0 then []
    else if |lines[0]| == 0 then NonEmpty(lines[1..])
    else [lines[0]] + NonEmpty(lines[1..])
  }

  /** The reply a message produces: its response, encoded, if both exist. */
  function ReplyOf<R>(ctx: Context, handle: MessageHandler<R>, encode: Encoder<R>, m: seq<byte>): Option<seq<byte>> {
    if handle(ctx, m).Some? then encode(handle(ctx, m).value) else None
  }

  /** The replies of the messages, each followed by '\n'. */
  function Replies<R>(ctx: Context, handle: MessageHandler<R>, encode: Encoder<R>, msgs: seq<seq<byte>>): seq<byte>
    decreases |msgs|
  {
    if |msgs| == 0 then []
    else
      var rest := Replies(ctx, handle, encode, msgs[1..]);
      match ReplyOf(ctx, handle, encode, msgs[0])
      case None => rest
      case Some(d) => d + [NL] + rest
  }

  /** When writes succeed, every non-empty line is dispatched, in order, and
      every reply is written, in the same order. */
  lemma {:induction false} LoopDispatchesAll<R>(lines: seq<seq<byte>>, ctx: Context,
                                                handle: MessageHandler<R>, encode: Encoder<R>)
    ensures LoopOf(lines, ctx, false, handle, encode).dispatched == NonEmpty(lines)
    ensures LoopOf(lines, ctx, false, handle, encode).replies == Replies(ctx, handle, encode, NonEmpty(lines))
    decreases |lines|
  {
    if |lines| > 0 {
      LoopDispatchesAll(lines[1..], ctx, handle, encode);
      if |lines[0]| > 0 {
        assert NonEmpty(lines)[1..] == NonEmpty(lines[1..]);
      }
    }
  }

  /** When writes fail, the loop stops at the first message that has a reply:
      nothing is written and no later message is dispatched. */
  lemma {:induction false} LoopStopsAtFailedWrite<R>(lines: seq<seq<byte>>, ctx: Context,
                                                    handle: MessageHandler<R>, encode: Encoder<R>)
    ensures LoopOf(lines, ctx, true, handle, encode).replies == []
    ensures var d := LoopOf(lines, ctx, true, handle, encode).dispatched;
            forall i :: 0 <= i < |d| - 1 ==> ReplyOf(ctx, handle, encode, d[i]).None?
    decreases |lines|
  {
    if |lines| > 0 {
      LoopStopsAtFailedWrite(lines[1..], ctx, handle, encode);
      var rest := LoopOf(lines[1..], ctx, true, handle, encode).dispatched;
      var d := LoopOf(lines, ctx, true, handle, encode).dispatched;
      if |lines[0]| > 0 && ReplyOf(ctx, handle, encode, lines[0]).None? {
        assert d == [lines[0]] + rest;
        forall i | 0 <= i < |d| - 1 ensures ReplyOf(ctx, handle, encode, d[i]).None? {
          if i > 0 { assert d[i] == rest[i - 1]; }
        }
      }
    }
  }

  /** One line of the loop, as the loop takes it. */
  lemma LoopCons<R>(l: seq<byte>, rest: seq<seq<byte>>, ctx: Context, writeFails: bool,
                    handle: MessageHandler<R>, encode: Encoder<R>)
    ensures var here := LoopOf([l] + rest, ctx, writeFails, handle, encode);
            var there := LoopOf(rest, ctx, writeFails, handle, encode);
            var reply := ReplyOf(ctx, handle, encode, l);
            here == if |l| == 0 then there
                    else if reply.None? then LoopResult([l] + there.dispatched, there.replies)
                    else if writeFails then LoopResult([l], [])
                    else LoopResult([l] + there.dispatched, reply.value + [NL] + there.replies)
  {
    assert ([l] + rest)[1..] == rest;
  }

  /** Reading a line takes the first of the input's lines. */
  lemma LinesStep(input: seq<byte>)
    ensures NextLine(input).0.None? ==> Lines(input) == []
    ensures NextLine(input).0.Some? ==> Lines(input) == [NextLine(input).0.value] + Lines(NextLine(input).1)
  {
  }

  /** One non-empty message: hands it to the handler and writes the encoded
      reply, if there is one; reports whether that write failed. */
  method HandleLine<R>(stream: Stream, ctx: Context, l: seq<byte>, handle: MessageHandler<R>, encode: Encoder<R>)
    returns (failed: bool)
    modifies stream`written
    ensures var reply := ReplyOf(ctx, handle, encode, l);
            (failed <==> reply.Some? && stream.writeFails) &&
            stream.written == if reply.Some? && !stream.writeFails then old(stream.written) + reply.value + [NL]
                              else old(stream.written)
  {
    var resp := handle(ctx, l);
    if resp.None? {
      return false;
    }
    var data := encode(resp.value);
    if data.None? {
      return false;
    }
    var ok := stream.Write(data.value + [NL]);
    return !ok;
  }

  /** A non-empty line served ahead of the lines `rest`: `failed` when its
      reply could not be written, in which case the loop stops there. */
  method ServeMessage<R>(stream: Stream, ctx: Context, l: seq<byte>, handle: MessageHandler<R>, encode: Encoder<R>,
                         ghost rest: seq<seq<byte>>, dispatched: seq<seq<byte>>)
    returns (failed: bool, dispatched': seq<seq<byte>>)
    requires |l| > 0
    modifies stream`written
    ensures var here := LoopOf([l] + rest, ctx, stream.writeFails, handle, encode);
            var there := LoopOf(rest, ctx, stream.writeFails, handle, encode);
            if failed then dispatched' == dispatched + here.dispatched && stream.written == old(stream.written) + here.replies
            else dispatched' + there.dispatched == dispatched + here.dispatched &&
                 stream.written + there.replies == old(stream.written) + here.replies
  {
    ghost var there := LoopOf(rest, ctx, stream.writeFails, handle, encode);
    LoopCons(l, rest, ctx, stream.writeFails, handle, encode);
    dispatched' := dispatched + [l];
    assert dispatched + ([l] + there.dispatched) == dispatched' + there.dispatched;
    failed := HandleLine(stream, ctx, l, handle, encode);
    if failed {
      assert stream.written + [] == stream.written;
      return;
    }
    ghost var reply := ReplyOf(ctx, handle, encode, l);
    if reply.Some? {
      assert old(stream.written) + (reply.value + [NL] + there.replies) == stream.written + there.replies;
    }
  }

  /** One turn of the read loop: reads a line and serves it. `done` when the
      input has ended or a write failed; either way, what has been dispatched
      and written so far plus what the loop will still do over the lines left
      is what it would have done over the lines before the turn. */
  method ServeNextLine<R>(stream: Stream, ctx: Context, handle: MessageHandler<R>, encode: Encoder<R>,
                          dispatched: seq<seq<byte>>)
    returns (done: bool, dispatched': seq<seq<byte>>)
    modifies stream`unread, stream`written
    ensures var spec := LoopOf(Lines(old(stream.unread)), ctx, stream.writeFails, handle, encode);
            var left := LoopOf(Lines(stream.unread), ctx, stream.writeFails, handle, encode);
            if done then dispatched' == dispatched + spec.dispatched && stream.written == old(stream.written) + spec.replies
            else |stream.unread| < |old(stream.unread)| &&
                 dispatched' + left.dispatched == dispatched + spec.dispatched &&
                 stream.written + left.replies == old(stream.written) + spec.replies
  {
    LinesStep(stream.unread);
    var line := stream.ReadLine();
    if line.None? {
      assert dispatched + [] == dispatched && stream.written + [] == stream.written;
      return true, dispatched;
    }
    var l := line.value;
    if |l| == 0 {
      LoopCons(l, Lines(stream.unread), ctx, stream.writeFails, handle, encode);
      return false, dispatched;
    }
    done, dispatched' := ServeMessage(stream, ctx, l, handle, encode, Lines(stream.unread), dispatched);
  }

  /** The read loop of ServeConn: reads lines until the input ends or a
      write fails. */
  method ReadLoop<R>(stream: Stream, ctx: Context, handle: MessageHandler<R>, encode: Encoder<R>)
    returns (dispatched: seq<seq<byte>>)
    modifies stream`unread, stream`written
    ensures var spec := LoopOf(Lines(old(stream.unread)), ctx, stream.writeFails, handle, encode);
            dispatched == spec.dispatched && stream.written == old(stream.written) + spec.replies
  {
    ghost var total := LoopOf(Lines(stream.unread), ctx, stream.writeFails, handle, encode);
    ghost var out0 := stream.written;
    dispatched := [];
    var done := false;
    while !done
      invariant !done ==> dispatched + LoopOf(Lines(stream.unread), ctx, stream.writeFails, handle, encode).dispatched
                          == total.dispatched
      invariant !done ==> stream.written + LoopOf(Lines(stream.unread), ctx, stream.writeFails, handle, encode).replies
                          == out0 + total.replies
      invariant done ==> dispatched == total.dispatched && stream.written == out0 + total.replies
      decreases !done, |stream.unread|
    {
      done, dispatched := ServeNextLine(stream, ctx, handle, encode, dispatched);
    }
  }

  // ---- ServeConn ----

  /** What ServeConn did to the connection and the MCP server. */
  datatype ConnOutcome = ConnOutcome(
    closed: Option<(ConnCode, string)>,
    sessionId: Option<string>,
    registered: bool,
    unregistered: bool,
    dispatched: seq<seq<byte>>)

  /** ServeConn: accepts the first stream, checks the magic bytes, starts a
      session, registers it and serves its lines; the handler sees the
      transport "mcp_quic". `stream` is None when no stream could be
      accepted; `registerOk` is whether the MCP server takes the session. */
  method ServeConn<R>(stream: Option<Stream>, ctx: Context, randomBytes: seq<byte>, registerOk: bool,
                      handle: MessageHandler<R>, encode: Encoder<R>)
    returns (out: ConnOutcome, session: Option<Session>)
    requires |randomBytes| == 4
    modifies if stream.Some? then {stream.value} else {}
    ensures stream.None? ==>
              out == ConnOutcome(Some((ProtocolViolation, "stream accept failed")), None, false, false, []) && session.None?
    ensures stream.Some? && MagicCheck(old(stream.value.unread)).0.Some? ==>
              out == ConnOutcome(Some((ProtocolViolation, "invalid magic bytes")), None, false, false, [])
              && stream.value.readCancel == Some(ProtocolConfusion)
              && stream.value.writeCancel == Some(ProtocolConfusion)
              && stream.value.written == old(stream.value.written) && session.None?
    ensures stream.Some? && MagicCheck(old(stream.value.unread)).0.None? ==>
              out.closed.None? && out.sessionId == Some(SessionIdOf(randomBytes))
              && out.registered == registerOk && out.unregistered == registerOk
              && session.Some? && fresh(session.value) && session.value.id == SessionIdOf(randomBytes)
              && stream.value.closed == (old(stream.value.closed) || !registerOk)
    ensures stream.Some? && MagicCheck(old(stream.value.unread)).0.None? && !registerOk ==>
              out.dispatched == [] && stream.value.written == old(stream.value.written)
    ensures stream.Some? && MagicCheck(old(stream.value.unread)).0.None? && registerOk ==>
              var spec := LoopOf(Lines(MagicCheck(old(stream.value.unread)).1), WithTransport(ctx, "mcp_quic"),
                                 stream.value.writeFails, handle, encode);
              out.dispatched == spec.dispatched && stream.value.written == old(stream.value.written) + spec.replies
  {
    if stream.None? {
      return ConnOutcome(Some((ProtocolViolation, "stream accept failed")), None, false, false, []), None;
    }
    var s := stream.value;
    var err := ValidateMagicBytes(s);
    if err.Some? {
      s.CancelWrite(ProtocolConfusion);
      s.CancelRead(ProtocolConfusion);
      return ConnOutcome(Some((ProtocolViolation, "invalid magic bytes")), None, false, false, []), None;
    }
    var sessionId := "quic_" + HexEncode(randomBytes);
    var sess := new Session(sessionId);
    if !registerOk {
      s.Close();
      return ConnOutcome(None, Some(sessionId), false, false, []), Some(sess);
    }
    var sctx := WithTransport(ctx, "mcp_quic");
    var dispatched := ReadLoop(s, sctx, handle, encode);
    return ConnOutcome(None, Some(sessionId), true, true, dispatched), Some(sess);
  }

  /** The handler's requests carry the QUIC transport. */
  lemma ServedRequestsSeeQuicTransport(ctx: Context)
    ensures GetTransport(WithTransport(ctx, "mcp_quic")) == "mcp_quic"
    ensures GetUserId(WithTransport(ctx, "mcp_quic")) == GetUserId(ctx)
  {
  }

  // ---- the session ----

  const NotificationCapacity: nat := 100

  /** A session: its id, its notification queue and whether the client has
      initialized it. */
  class Session {
    const id: string
    const capacity: nat
    var pending: seq<seq<byte>>
    var initialized: bool

    /** newSession: not initialized, with an empty 100-slot queue. */
    constructor (id: string)
      ensures this.id == id && capacity == NotificationCapacity
      ensures pending == [] && !initialized
    {
      this.id := id;
      capacity := NotificationCapacity;
      pending := [];
      initialized := false;
    }

    method Initialize()
      modifies this`initialized
      ensures initialized
    {
      initialized := true;
    }

    function Initialized(): bool
      reads this`initialized
    {
      initialized
    }
  }

  // ---- the standalone listener ----

  /** One result of Accept: an error, noting whether the context was
      cancelled, or a connection with its negotiated ALPN protocol. */
  datatype AcceptEvent = AcceptFailed(cancelled: bool) | Accepted(alpn: string)

  /** What the loop did with one accept result. */
  datatype Disposition = Served | Rejected(code: ConnCode, reason: string) | ErrorLogged

  function DispositionOf(e: AcceptEvent): Disposition
    requires !(e.AcceptFailed? && e.cancelled)
  {
    if e.AcceptFailed? then ErrorLogged
    else if e.alpn == AlpnProtocolMcp then Served
    else Rejected(UnsupportedAlpn, "unsupported ALPN: " + e.alpn)
  }

  predicate IsCancel(e: AcceptEvent) {
    e.AcceptFailed? && e.cancelled
  }

  /** Listener.Serve over a finite run of accept results: the dispositions
      of the results before the first cancellation, and whether the loop
      returned because of one. */
  function ServeOf(events: seq<AcceptEvent>): (r: (seq<Disposition>, bool))
    ensures |r.0| <= |events|
    decreases |events|
  {
    if |events| == 0 then ([], false)
    else if IsCancel(events[0]) then ([], true)
    else
      var rest := ServeOf(events[1..]);
      ([DispositionOf(events[0])] + rest.0, rest.1)
  }

  /** The loop returns iff some accept result reports a cancelled context,
      and it has then handled exactly the results before the first one. */
  lemma {:induction false} ServeOfStops(events: seq<AcceptEvent>)
    ensures ServeOf(events).1 <==> exists i :: 0 <= i < |events| && IsCancel(events[i])
    ensures var r := ServeOf(events);
            forall i :: 0 <= i < |r.0| ==> !IsCancel(events[i]) && r.0[i] == DispositionOf(events[i])
    ensures var r := ServeOf(events);
            r.1 ==> IsCancel(events[|r.0|])
    ensures var r := ServeOf(events);
            !r.1 ==> |r.0| == |events|
    decreases |events|
  {
    if |events| > 0 && !IsCancel(events[0]) {
      var tail := events[1..];
      ServeOfStops(tail);
      var r := ServeOf(events);
      var rest := ServeOf(tail);
      assert r.0 == [DispositionOf(events[0])] + rest.0;
      forall i | 0 <= i < |r.0|
        ensures !IsCancel(events[i]) && r.0[i] == DispositionOf(events[i])
      {
        if i > 0 {
          assert events[i] == tail[i - 1];
        }
      }
      if exists i :: 0 <= i < |events| && IsCancel(events[i]) {
        var i :| 0 <= i < |events| && IsCancel(events[i]);
        assert tail[i - 1] == events[i];
      }
      if rest.1 {
        var i :| 0 <= i < |tail| && IsCancel(tail[i]);
        assert events[i + 1] == tail[i];
        assert events[|r.0|] == tail[|rest.0|];
      }
    }
  }

  /** Only connections that negotiated horos-mcp-v1 are served; every other
      connection is closed with UnsupportedAlpn, naming its protocol. */
  lemma AlpnFilter(events: seq<AcceptEvent>, i: int)
    requires 0 <= i < |ServeOf(events).0|
    ensures ServeOf(events).0[i] == Served <==> events[i] == Accepted(AlpnProtocolMcp)
    ensures ServeOf(events).0[i].Rejected? <==> events[i].Accepted? && events[i].alpn != AlpnProtocolMcp
    ensures ServeOf(events).0[i].Rejected? ==>
              ServeOf(events).0[i] == Rejected(UnsupportedAlpn, "unsupported ALPN: " + events[i].alpn)
  {
    ServeOfStops(events);
  }

  /** Listener.Serve: keeps accepting after errors, returning only on a
      cancelled context. */
  method Serve(events: seq<AcceptEvent>) returns (dispositions: seq<Disposition>, cancelled: bool)
    ensures (dispositions, cancelled) == ServeOf(events)
  {
    dispositions := [];
    var i := 0;
    while i < |events|
      invariant 0 <= i <= |events|
      invariant dispositions + ServeOf(events[i..]).0 == ServeOf(events).0
      invariant ServeOf(events[i..]).1 == ServeOf(events).1
    {
      ServeStep(events, i);
      var e := events[i];
      if e.AcceptFailed? && e.cancelled {
        assert dispositions + [] == dispositions;
        return dispositions, true;
      }
      ghost var before := dispositions;
      if e.AcceptFailed? {
        dispositions := dispositions + [ErrorLogged];
      } else if e.alpn != AlpnProtocolMcp {
        dispositions := dispositions + [Rejected(UnsupportedAlpn, "unsupported ALPN: " + e.alpn)];
      } else {
        dispositions := dispositions + [Served];
      }
      assert dispositions == before + [DispositionOf(e)];
      AppendOne(before, DispositionOf(e), ServeOf(events[i + 1..]).0);
      i := i + 1;
    }
    assert events[i..] == [];
    assert dispositions + [] == dispositions;
    return dispositions, false;
  }

  lemma AppendOne(before: seq<Disposition>, d: Disposition, rest: seq<Disposition>)
    ensures before + ([d] + rest) == (before + [d]) + rest
  {
  }

  lemma ServeStep(events: seq<AcceptEvent>, i: int)
    requires 0 <= i < |events|
    ensures ServeOf(events[i..]) ==
              if IsCancel(events[i]) then ([], true)
              else ([DispositionOf(events[i])] + ServeOf(events[i + 1..]).0, ServeOf(events[i + 1..]).1)
  {
    assert events[i..][1..] == events[i + 1..];
  }
}
