/** The dual-transport chassis (pkg/chassis/server.go): TLS selection when the
    server is built, the HTTP middleware that stamps response headers, the
    Alt-Svc advertisement, the QUIC accept loop's ALPN demultiplexing and the
    first-error fold of Stop. Listeners, goroutines and the TLS builders are
    outside the model: what they return is given. */
module Chassis {
  import opened Wrappers
  import opened QuicErrors
  import opened Magic

  // ---- TLS selection ----

  /** A TLS configuration as far as the chassis looks into one: the
      certificate it serves and the ALPN protocols it offers. */
  datatype TlsConfig = TlsConfig(certificate: string, nextProtos: seq<string>)

  /** The chassis configuration; `mcpServer` says whether an MCP server was given. */
  datatype Config = Config(addr: string, tls: Option<TlsConfig>, certFile: string, keyFile: string, mcpServer: bool)

  /** Which TLS configuration New settles on. */
  datatype TlsSource = Supplied | ProductionFiles | SelfSigned

  function TlsSourceOf(cfg: Config): (src: TlsSource)
    ensures src == Supplied <==> cfg.tls.Some?
    ensures src == ProductionFiles <==> cfg.tls.None? && cfg.certFile != "" && cfg.keyFile != ""
    ensures src == SelfSigned <==> cfg.tls.None? && (cfg.certFile == "" || cfg.keyFile == "")
  {
    if cfg.tls.Some? then Supplied
    else if cfg.certFile != "" && cfg.keyFile != "" then ProductionFiles
    else SelfSigned
  }

  /** The TLS configuration of New, given what the production loader
      (`prod`) and the self-signed generator (`dev`) would return; only the
      selected builder's outcome matters, and its failure aborts New. */
  function SelectTls(cfg: Config, prod: Result<TlsConfig, string>, dev: Result<TlsConfig, string>)
    : (r: Result<TlsConfig, string>)
    ensures TlsSourceOf(cfg) == Supplied ==> r == Ok(cfg.tls.value)
    ensures TlsSourceOf(cfg) == ProductionFiles ==>
              (r.Ok? <==> prod.Ok?) && (r.Ok? ==> r.value == prod.value)
              && (r.Err? ==> r.error == "load TLS cert: " + prod.error)
    ensures TlsSourceOf(cfg) == SelfSigned ==>
              (r.Ok? <==> dev.Ok?) && (r.Ok? ==> r.value == dev.value)
              && (r.Err? ==> r.error == "generate dev TLS: " + dev.error)
  {
    match TlsSourceOf(cfg)
    case Supplied => Ok(cfg.tls.value)
    case ProductionFiles => if prod.Ok? then prod else Err("load TLS cert: " + prod.error)
    case SelfSigned => if dev.Ok? then dev else Err("generate dev TLS: " + dev.error)
  }

  /** A supplied configuration wins over certificate paths, whatever the
      builders would do. */
  lemma SuppliedTlsWins(cfg: Config, prod: Result<TlsConfig, string>, dev: Result<TlsConfig, string>,
                        prod': Result<TlsConfig, string>, dev': Result<TlsConfig, string>)
    requires cfg.tls.Some?
    ensures SelectTls(cfg, prod, dev) == SelectTls(cfg, prod', dev') == Ok(cfg.tls.value)
  {
  }

  /** The TLS configuration of the TCP listener: a copy of the shared one
      offering HTTP/2 and HTTP/1.1 only. */
  function TcpTls(shared: TlsConfig): (c: TlsConfig)
    ensures c.nextProtos == ["h2", "http/1.1"]
    ensures c.certificate == shared.certificate
  {
    shared.(nextProtos := ["h2", "http/1.1"])
  }

  /** The TCP server Start builds: its address and TLS configuration. */
  datatype TcpServer = TcpServer(addr: string, tls: TlsConfig)

  class Server {
    const addr: string
    const tlsCfg: TlsConfig
    /** Whether an MCP-over-QUIC handler was built. */
    const mcpHandler: bool
    var tcpServer: Option<TcpServer>
    var quicListener: bool
    var h3Server: bool

    constructor (addr: string, tlsCfg: TlsConfig, mcpHandler: bool)
      ensures this.addr == addr && this.tlsCfg == tlsCfg && this.mcpHandler == mcpHandler
      ensures tcpServer.None? && !quicListener && !h3Server
    {
      this.addr := addr;
      this.tlsCfg := tlsCfg;
      this.mcpHandler := mcpHandler;
      tcpServer := None;
      quicListener := false;
      h3Server := false;
    }

    /** The setup part of Start, given the outcome of opening the QUIC
        listener. The TCP server is built before the listener is opened, so
        it stays set when that fails; the shared TLS configuration is never
        changed. */
    method Start(listenErr: Option<string>) returns (err: Option<string>)
      modifies this`tcpServer, this`quicListener, this`h3Server
      ensures tcpServer == Some(TcpServer(addr, TcpTls(tlsCfg)))
      ensures err.Some? <==> listenErr.Some?
      ensures err.Some? ==> err.value == "QUIC listen: " + listenErr.value
                            && quicListener == old(quicListener) && h3Server == old(h3Server)
      ensures err.None? ==> quicListener && h3Server
    {
      var tcpTls := TcpTls(tlsCfg);
      tcpServer := Some(TcpServer(addr, tcpTls));
      if listenErr.Some? {
        return Some("QUIC listen: " + listenErr.value);
      }
      quicListener := true;
      h3Server := true;
      return None;
    }

    /** Stop: shuts down every component that exists, in the order TCP
        server, QUIC listener, HTTP/3 server, given what each shutdown
        returns, and reports the first failure in that order. */
    method Stop(tcpResult: Option<string>, quicResult: Option<string>, h3Result: Option<string>)
      returns (err: Option<string>)
      ensures err == FirstError(StopResults(tcpServer.Some?, quicListener, h3Server, tcpResult, quicResult, h3Result))
    {
      FirstErrorOfThree(StopResults(tcpServer.Some?, quicListener, h3Server, tcpResult, quicResult, h3Result));
      var firstErr: Option<string> := None;
      if tcpServer.Some? {
        if tcpResult.Some? && firstErr.None? {
          firstErr := tcpResult;
        }
      }
      if quicListener {
        if quicResult.Some? && firstErr.None? {
          firstErr := quicResult;
        }
      }
      if h3Server {
        if h3Result.Some? && firstErr.None? {
          firstErr := h3Result;
        }
      }
      return firstErr;
    }
  }

  /** New: the server, or the TLS failure that aborts it; an MCP handler is
      built exactly when an MCP server is configured. */
  method New(cfg: Config, prod: Result<TlsConfig, string>, dev: Result<TlsConfig, string>)
    returns (r: Result<Server, string>)
    ensures r.Ok? <==> SelectTls(cfg, prod, dev).Ok?
    ensures r.Err? ==> r.error == SelectTls(cfg, prod, dev).error
    ensures r.Ok? ==> fresh(r.value) && r.value.addr == cfg.addr && r.value.tlsCfg == SelectTls(cfg, prod, dev).value
                      && r.value.mcpHandler == cfg.mcpServer
                      && r.value.tcpServer.None? && !r.value.quicListener && !r.value.h3Server
  {
    var tls := SelectTls(cfg, prod, dev);
    if tls.Err? {
      return Err(tls.error);
    }
    var s := new Server(cfg.addr, tls.value, cfg.mcpServer);
    return Ok(s);
  }

  // ---- Stop ----

  /** The outcome of each shutdown step, None for a component that does not exist. */
  function StopResults(tcp: bool, quic: bool, h3: bool,
                       tcpResult: Option<string>, quicResult: Option<string>, h3Result: Option<string>)
    : (rs: seq<Option<string>>)
    ensures |rs| == 3
    ensures rs[0] == (if tcp then tcpResult else None)
    ensures rs[1] == (if quic then quicResult else None)
    ensures rs[2] == (if h3 then h3Result else None)
  {
    [if tcp then tcpResult else None, if quic then quicResult else None, if h3 then h3Result else None]
  }

  /** The first failure of a run of steps. */
  function FirstError(results: seq<Option<string>>): (r: Option<string>)
    decreases |results|
  {
    if |results| == 0 then None
    else if results[0].Some? then results[0]
    else FirstError(results[1..])
  }

  /** FirstError over three steps, step by step. */
  lemma FirstErrorOfThree(results: seq<Option<string>>)
    requires |results| == 3
    ensures FirstError(results) ==
              if results[0].Some? then results[0] else if results[1].Some? then results[1] else results[2]
  {
    var t1 := results[1..];
    var t2 := t1[1..];
    assert t1[0] == results[1] && t2[0] == results[2];
    assert FirstError(t2[1..]) == None;
    assert FirstError(t2) == if t2[0].Some? then t2[0] else None;
    assert FirstError(t1) == if t1[0].Some? then t1[0] else FirstError(t2);
  }

  /** FirstError is the earliest failure: none exactly when every step
      succeeds, otherwise the failure of a step that every earlier step
      passed. */
  lemma {:induction false} FirstErrorIsEarliest(results: seq<Option<string>>)
    ensures FirstError(results).None? <==> forall i :: 0 <= i < |results| ==> results[i].None?
    ensures FirstError(results).Some? ==>
              exists i :: 0 <= i < |results| && results[i] == FirstError(results)
                          && forall j :: 0 <= j < i ==> results[j].None?
    decreases |results|
  {
    if |results| > 0 && results[0].None? {
      var tail := results[1..];
      FirstErrorIsEarliest(tail);
      if FirstError(tail).Some? {
        var i :| 0 <= i < |tail| && tail[i] == FirstError(tail) && forall j :: 0 <= j < i ==> tail[j].None?;
        assert results[i + 1] == tail[i];
        forall j | 0 <= j < i + 1 ensures results[j].None? {
          if j > 0 { assert results[j] == tail[j - 1]; }
        }
      } else {
        forall i | 0 <= i < |results| ensures results[i].None? {
          if i > 0 { assert results[i] == tail[i - 1]; }
        }
      }
    }
  }

  /** A failed TCP shutdown is what Stop reports, even when the later steps
      fail too. */
  lemma StopReportsTcpFirst(quic: bool, h3: bool, tcpErr: string, quicResult: Option<string>, h3Result: Option<string>)
    ensures FirstError(StopResults(true, quic, h3, Some(tcpErr), quicResult, h3Result)) == Some(tcpErr)
  {
  }

  // ---- HTTP middleware ----

  /** Response headers; keys are in canonical form. */
  type Header = map<string, string>

  /** An HTTP handler, seen through what it leaves in the response header
      given the header it starts with. */
  type HttpHandler = Header -> Header

  const SecurityHeaderNames: seq<string> := [
    "X-Content-Type-Options", "X-Frame-Options", "Referrer-Policy",
    "Content-Security-Policy", "Permissions-Policy"]

  const SecurityHeaderValues: seq<string> := [
    "nosniff", "DENY", "strict-origin-when-cross-origin",
    "default-src 'self'; script-src 'self'; style-src 'self' 'unsafe-inline'; img-src 'self' data:; frame-ancestors 'none'",
    "camera=(), microphone=(), geolocation=()"]

  /** The five fixed headers set on a response header; every other header is
      left as it was. */
  function SetSecurityHeaders(h: Header): (r: Header)
    ensures forall i :: 0 <= i < 5 ==> SecurityHeaderNames[i] in r && r[SecurityHeaderNames[i]] == SecurityHeaderValues[i]
    ensures forall k :: k !in SecurityHeaderNames ==> (k in r <==> k in h) && (k in h ==> r[k] == h[k])
  {
    h[SecurityHeaderNames[0] := SecurityHeaderValues[0]]
     [SecurityHeaderNames[1] := SecurityHeaderValues[1]]
     [SecurityHeaderNames[2] := SecurityHeaderValues[2]]
     [SecurityHeaderNames[3] := SecurityHeaderValues[3]]
     [SecurityHeaderNames[4] := SecurityHeaderValues[4]]
  }

  /** securityHeaders: sets the five headers, then calls the next handler. */
  function SecurityHeaders(next: HttpHandler): HttpHandler {
    h => next(SetSecurityHeaders(h))
  }

  /** The Alt-Svc value advertising HTTP/3 on the same port; `port` is what
      splitting the listen address gave, "" when it could not be split. */
  function AltSvcValue(port: string): (v: string)
    ensures var p := if port == "" then "8080" else port;
            v == "h3=\":" + p + "\"; ma=86400"
  {
    var p := if port == "" then "8080" else port;
    "h3=\":" + p + "\"; ma=86400"
  }

  /** The port an Alt-Svc value of this shape advertises. */
  function AdvertisedPort(v: string): (p: Option<string>)
    ensures p.Some? ==> v == "h3=\":" + p.value + "\"; ma=86400"
  {
    if |v| >= 5 + 11 && v[..5] == "h3=\":" && v[|v| - 11..] == "\"; ma=86400" then
      assert v == v[..5] + v[5..|v| - 11] + v[|v| - 11..];
      Some(v[5..|v| - 11])
    else None
  }

  /** The advertised port reads back from the value: the listen port, or
      8080 when the address has none. */
  lemma AltSvcAdvertisesPort(port: string)
    ensures AdvertisedPort(AltSvcValue(port)) == Some(if port == "" then "8080" else port)
  {
    var p := if port == "" then "8080" else port;
    var v := AltSvcValue(port);
    assert v[..5] == "h3=\":";
    assert v[|v| - 11..] == "\"; ma=86400";
    assert v[5..|v| - 11] == p;
  }

  /** altSvcMiddleware: sets Alt-Svc, then calls the next handler. */
  function AltSvcMiddleware(port: string, next: HttpHandler): HttpHandler {
    h => next(h["Alt-Svc" := AltSvcValue(port)])
  }

  /** The handler both HTTP servers run: the application handler sees the
      five security headers and the Alt-Svc advertisement already set, and
      every other header as it came. */
  lemma ServedHeaders(port: string, app: HttpHandler, h: Header)
    ensures var seen := SetSecurityHeaders(h)["Alt-Svc" := AltSvcValue(port)];
            SecurityHeaders(AltSvcMiddleware(port, app))(h) == app(seen)
            && seen["Alt-Svc"] == AltSvcValue(port)
            && (forall i :: 0 <= i < 5 ==> seen[SecurityHeaderNames[i]] == SecurityHeaderValues[i])
            && (forall k :: k !in SecurityHeaderNames && k != "Alt-Svc" ==> (k in seen <==> k in h))
  {
    var seen := SetSecurityHeaders(h)["Alt-Svc" := AltSvcValue(port)];
    forall i | 0 <= i < 5 ensures seen[SecurityHeaderNames[i]] == SecurityHeaderValues[i] {
      assert SecurityHeaderNames[i] != "Alt-Svc";
    }
  }

  // ---- ALPN demultiplexing ----

  /** Where the accept loop sends a QUIC connection. */
  datatype Route = ToHttp3 | ToMcp | CloseConn(code: nat, reason: string)

  /** The ALPN switch: "h3" to HTTP/3, "horos-mcp-v1" to the MCP handler when
      there is one and closed with 0x10 otherwise, anything else closed with
      0x11 naming the protocol. */
  function RouteOf(alpn: string, mcpHandler: bool): (r: Route)
    ensures r == ToHttp3 <==> alpn == "h3"
    ensures r == ToMcp <==> alpn == AlpnProtocolMcp && mcpHandler
    ensures r == CloseConn(0x10, "MCP not enabled") <==> alpn == AlpnProtocolMcp && !mcpHandler
    ensures r.CloseConn? && r.code != 0x10 ==>
              r == CloseConn(0x11, "unsupported ALPN: " + alpn) && alpn != "h3" && alpn != AlpnProtocolMcp
  {
    if alpn == "h3" then ToHttp3
    else if alpn == AlpnProtocolMcp then
      (if mcpHandler then ToMcp else CloseConn(0x10, "MCP not enabled"))
    else CloseConn(0x11, "unsupported ALPN: " + alpn)
  }

  /** The chassis closes with codes of its own, outside the connection codes
      of the MCP-over-QUIC package. */
  lemma ChassisCodesAreNotConnCodes(alpn: string, mcpHandler: bool)
    requires RouteOf(alpn, mcpHandler).CloseConn?
    ensures ConnCodeOf(RouteOf(alpn, mcpHandler).code).None?
  {
  }

  /** One result of the QUIC listener's Accept. */
  datatype ChassisAccept = AcceptError(cancelled: bool, message: string) | Conn(alpn: string)

  /** How the accept loop ended: the results ran out, the context was
      cancelled (the loop returns silently), or an error was reported. */
  datatype LoopEnd = Exhausted | Cancelled | Reported(err: string)

  /** The accept loop of Start over a finite run of accept results: the
      route of every connection up to the first error, and how it ended. */
  function AcceptLoopOf(events: seq<ChassisAccept>, mcpHandler: bool): (r: (seq<Route>, LoopEnd))
    decreases |events|
  {
    if |events| == 0 then ([], Exhausted)
    else if events[0].AcceptError? then
      ([], if events[0].cancelled then Cancelled else Reported("QUIC accept: " + events[0].message))
    else
      var rest := AcceptLoopOf(events[1..], mcpHandler);
      ([RouteOf(events[0].alpn, mcpHandler)] + rest.0, rest.1)
  }

  /** The first error ends the loop: every result before it is a connection,
      routed by its ALPN; the loop reports that error unless it is a
      cancellation; without an error every connection is routed. */
  lemma {:induction false} AcceptLoopStopsAtFirstError(events: seq<ChassisAccept>, mcpHandler: bool)
    ensures var r := AcceptLoopOf(events, mcpHandler);
            |r.0| <= |events|
            && (forall i :: 0 <= i < |r.0| ==> events[i].Conn? && r.0[i] == RouteOf(events[i].alpn, mcpHandler))
            && (r.1 == Exhausted <==> forall i :: 0 <= i < |events| ==> events[i].Conn?)
            && (r.1 == Exhausted ==> |r.0| == |events|)
            && (r.1 != Exhausted ==>
                  (events[|r.0|].AcceptError?
                   && (r.1 == Cancelled <==> events[|r.0|].cancelled)
                   && (r.1.Reported? ==> r.1.err == "QUIC accept: " + events[|r.0|].message)))
    decreases |events|
  {
    if |events| > 0 && events[0].Conn? {
      var tail := events[1..];
      AcceptLoopStopsAtFirstError(tail, mcpHandler);
      var r := AcceptLoopOf(events, mcpHandler);
      var rest := AcceptLoopOf(tail, mcpHandler);
      assert r.0 == [RouteOf(events[0].alpn, mcpHandler)] + rest.0;
      forall i | 0 <= i < |r.0|
        ensures events[i].Conn? && r.0[i] == RouteOf(events[i].alpn, mcpHandler)
      {
        if i > 0 { assert events[i] == tail[i - 1]; }
      }
      if forall i :: 0 <= i < |events| ==> events[i].Conn? {
        forall i | 0 <= i < |tail| ensures tail[i].Conn? {
          assert tail[i] == events[i + 1];
        }
      }
      if rest.1 != Exhausted {
        assert events[|r.0|] == tail[|rest.0|];
      } else {
        forall i | 0 <= i < |events| ensures events[i].Conn? {
          if i > 0 { assert events[i] == tail[i - 1]; }
        }
      }
    }
  }

  /** Start's QUIC accept loop: routes connections by ALPN and ends at the
      first accept error, reporting it unless the context was cancelled. */
  method AcceptLoop(events: seq<ChassisAccept>, mcpHandler: bool) returns (routes: seq<Route>, end: LoopEnd)
    ensures (routes, end) == AcceptLoopOf(events, mcpHandler)
  {
    routes := [];
    var i := 0;
    while i < |events|
      invariant 0 <= i <= |events|
      invariant routes + AcceptLoopOf(events[i..], mcpHandler).0 == AcceptLoopOf(events, mcpHandler).0
      invariant AcceptLoopOf(events[i..], mcpHandler).1 == AcceptLoopOf(events, mcpHandler).1
    {
      assert events[i..][1..] == events[i + 1..];
      var e := events[i];
      if e.AcceptError? {
        assert routes + [] == routes;
        if e.cancelled {
          return routes, Cancelled;
        }
        return routes, Reported("QUIC accept: " + e.message);
      }
      routes := routes + [RouteOf(e.alpn, mcpHandler)];
      i := i + 1;
    }
    assert events[i..] == [];
    assert routes + [] == routes;
    return routes, Exhausted;
  }

  /** Unlike the standalone listener, the chassis does not accept past an
      error that is not a cancellation. */
  lemma NoAcceptAfterReportedError(message: string, later: seq<ChassisAccept>, mcpHandler: bool)
    ensures AcceptLoopOf([AcceptError(false, message)] + later, mcpHandler) == ([], Reported("QUIC accept: " + message))
  {
  }
}
