/** The transport callers of outbound/caller.go: one query/response exchange
    with one upstream over UDP, TCP, DNS-over-TLS or DNS-over-HTTPS,
    optionally through a SOCKS5 proxy. A call is a function from the request
    and the I/O oracle to the trace of operations it performs and the value
    it returns. */
module Outbound {
  import opened Base
  import opened Dns

  const UdpClient := Client("udp", None)
  const TcpClient := Client("tcp", None)
  const DoHContentType := "application/dns-message"

  /** How a call ends: it returns a (message, error) pair, or it panics. */
  datatype Outcome = Returned(msg: Option<Msg>, err: Option<Error>) | Panicked

  datatype CallRun = CallRun(events: seq<Event>, outcome: Outcome)

  /** The requests `call` refuses before any I/O: a nil request, a request
      without a question, or an empty upstream address. */
  predicate Invalid(request: Option<Msg>, address: string) {
    request.None? || |request.value.question| == 0 || address == ""
  }

  /** The channel a proxied exchange runs over: the raw proxied connection
      for "tcp" and "udp" clients, a TLS session with the client's TLS
      configuration for any other transport name. */
  function ChannelFor(client: Client, conn: Conn): (ch: Channel)
    ensures ch.Plain? <==> client.net == "tcp" || client.net == "udp"
    ensures ch.Plain? ==> ch.conn == conn
    ensures ch.Tls? ==> ch.over == conn && ch.config == client.tls
  {
    if client.net == "tcp" || client.net == "udp" then Plain(conn) else Tls(conn, client.tls)
  }

  /** `call`: validate, then either one direct exchange (no dialer) or one
      proxied dial/write/read whose connection is closed on every way out. */
  function Call(client: Client, request: Option<Msg>, address: string, dialer: Option<Dialer>, io: Io): (c: CallRun)
    ensures c.outcome.Returned?
    // input validation comes before any I/O
    ensures Invalid(request, address) ==> c == CallRun([], Returned(None, Some(EmptyRequest)))
    // never more than the one upstream, and exactly it once the request is valid
    ensures Targets(c.events) == (if Invalid(request, address) then [] else [address])
    // no dialer: exactly one direct exchange, its result handed back unchanged, no connection opened
    ensures !Invalid(request, address) && dialer.None? ==>
      var rep := io.exchange(client, request.value, address);
      && c.events == [Exchange(client, request.value, address)]
      && c.outcome == Returned(rep.msg, rep.err)
    // a dialer: the first step is always a "tcp" dial to the upstream
    ensures !Invalid(request, address) && dialer.Some? ==>
      |c.events| >= 1 && c.events[0] == Dial(dialer.value, "tcp", address)
    // a failed dial returns its error with nothing written, read or closed
    ensures !Invalid(request, address) && dialer.Some? && io.dial(dialer.value, "tcp", address).Err? ==>
      c == CallRun([Dial(dialer.value, "tcp", address)],
                   Returned(None, Some(io.dial(dialer.value, "tcp", address).error)))
    // an opened connection is written over the right channel and closed exactly once, last
    ensures !Invalid(request, address) && dialer.Some? && io.dial(dialer.value, "tcp", address).Ok? ==>
      var conn := io.dial(dialer.value, "tcp", address).value;
      var ch := ChannelFor(client, conn);
      && |c.events| >= 3
      && c.events[1] == WriteMsg(ch, request.value)
      && CountWhere(c.events, IsCloseConn) == 1
      && c.events[|c.events| - 1] == CloseConn(conn)
      && (io.write(ch, request.value).Some? ==>
            c.outcome == Returned(None, io.write(ch, request.value)) && CountWhere(c.events, IsReadMsg) == 0)
      && (io.write(ch, request.value).None? ==>
            c.outcome == Returned(io.read(ch).msg, io.read(ch).err))
    // only a successful dial opens anything to close
    ensures CountWhere(c.events, IsCloseConn) > 0 ==>
      !Invalid(request, address) && dialer.Some? && io.dial(dialer.value, "tcp", address).Ok?
  {
    if Invalid(request, address) then CallRun([], Returned(None, Some(EmptyRequest)))
    else if dialer.None? then
      var rep := io.exchange(client, request.value, address);
      var events := [Exchange(client, request.value, address)];
      assert Targets(events) == [address];
      CallRun(events, Returned(rep.msg, rep.err))
    else
      var dial := Dial(dialer.value, "tcp", address);
      match io.dial(dialer.value, "tcp", address)
      case Err(e) =>
        assert Targets([dial]) == [address];
        CallRun([dial], Returned(None, Some(e)))
      case Ok(conn) =>
        var ch := ChannelFor(client, conn);
        var write := WriteMsg(ch, request.value);
        match io.write(ch, request.value)
        case Some(e) =>
          var events := [dial, write, CloseConn(conn)];
          assert Targets(events) == [address] && CountWhere(events, IsCloseConn) == 1 by {
            ProxiedTrace(dial, write, None, conn, address);
            assert events == [dial, write] + [] + [CloseConn(conn)];
          }
          CallRun(events, Returned(None, Some(e)))
        case None =>
          var rep := io.read(ch);
          var events := [dial, write, ReadMsg(ch), CloseConn(conn)];
          assert Targets(events) == [address] && CountWhere(events, IsCloseConn) == 1 by {
            ProxiedTrace(dial, write, Some(ReadMsg(ch)), conn, address);
            assert events == [dial, write] + [ReadMsg(ch)] + [CloseConn(conn)];
          }
          CallRun(events, Returned(rep.msg, rep.err))
  }

  /** A dial, a conversation that contacts nobody and closes nothing, then
      one close: the trace contacts the dialled upstream and closes once. */
  lemma ProxiedTrace(dial: Event, w: Event, r: Option<Event>, conn: Conn, address: string)
    requires dial.Dial? && dial.address == address
    requires w.WriteMsg? && (r.Some? ==> r.value.ReadMsg?)
    ensures var events := [dial, w] + (if r.Some? then [r.value] else []) + [CloseConn(conn)];
      Targets(events) == [address] && CountWhere(events, IsCloseConn) == 1
  {
    var close := CloseConn(conn);
    var tail := (if r.Some? then [r.value] else []) + [close];
    FilterMapCons(Target, close, []);
    CountWhereCons(close, [], IsCloseConn);
    if r.Some? {
      assert tail == [r.value] + [close];
      FilterMapCons(Target, r.value, [close]);
      CountWhereCons(r.value, [close], IsCloseConn);
    } else {
      assert tail == [close];
    }
    var events := [dial, w] + (if r.Some? then [r.value] else []) + [close];
    assert events == [dial, w] + tail;
    assert [dial, w] + tail == [dial] + ([w] + tail);
    FilterMapCons(Target, w, tail);
    CountWhereCons(w, tail, IsCloseConn);
    FilterMapCons(Target, dial, [w] + tail);
    CountWhereCons(dial, [w] + tail, IsCloseConn);
    assert Target(w) == None && Target(close) == None && Target(dial) == Some(address);
  }

  /** Every stage of a DoH call succeeds: pack, POST, body read, unpack. */
  predicate DoHSucceeds(request: Msg, url: string, io: Io) {
    && io.pack(request).Ok?
    && io.post(url, DoHContentType, io.pack(request).value).Ok?
    && io.readBody(io.post(url, DoHContentType, io.pack(request).value).value).Ok?
    && io.unpack(io.readBody(io.post(url, DoHContentType, io.pack(request).value).value).value).Ok?
  }

  /** DoHCaller.Call: pack the request, POST it as `application/dns-message`,
      read the whole body, unpack it. A nil request is not checked: packing
      it dereferences nil. */
  function DoHCall(url: string, request: Option<Msg>, io: Io): (c: CallRun)
    ensures request.None? ==> c == CallRun([], Panicked)
    // a request that cannot be packed fails before any POST
    ensures request.Some? && io.pack(request.value).Err? ==>
      c == CallRun([], Returned(None, Some(io.pack(request.value).error)))
    // only full success returns a message, and then without error
    ensures request.Some? ==> c.outcome.Returned? && (c.outcome.msg.Some? <==> c.outcome.err.None?)
    ensures request.Some? ==> (c.outcome.msg.Some? <==> DoHSucceeds(request.value, url, io))
    ensures request.Some? && DoHSucceeds(request.value, url, io) ==>
      var body := io.readBody(io.post(url, DoHContentType, io.pack(request.value).value).value).value;
      c.outcome.msg == Some(io.unpack(body).value)
    // the one POST goes to the configured URL with the DNS media type and the packed bytes
    ensures request.Some? && io.pack(request.value).Ok? ==>
      |c.events| >= 1 && c.events[0] == Post(url, DoHContentType, io.pack(request.value).value)
    ensures Targets(c.events) == (if request.Some? && io.pack(request.value).Ok? then [url] else [])
    // the response body is closed exactly once, last, iff the POST succeeded
    ensures CountWhere(c.events, IsCloseBody) == (
      if request.Some? && io.pack(request.value).Ok?
         && io.post(url, DoHContentType, io.pack(request.value).value).Ok? then 1 else 0)
    ensures CountWhere(c.events, IsCloseBody) == 1 ==> c.events[|c.events| - 1].CloseBody?
  {
    match request
    case None => CallRun([], Panicked)
    case Some(req) =>
      match io.pack(req)
      case Err(e) => CallRun([], Returned(None, Some(e)))
      case Ok(buf) =>
        var post := Post(url, DoHContentType, buf);
        match io.post(url, DoHContentType, buf)
        case Err(e) =>
          assert Targets([post]) == [url];
          CallRun([post], Returned(None, Some(e)))
        case Ok(resp) =>
          var events := [post, ReadBody(resp), CloseBody(resp)];
          assert Targets(events) == [url] by {
            assert events == [post] + [ReadBody(resp), CloseBody(resp)];
            FilterMapAppend(Target, [post], [ReadBody(resp), CloseBody(resp)]);
          }
          assert CountWhere(events, IsCloseBody) == 1;
          match io.readBody(resp)
          case Err(e) => CallRun(events, Returned(None, Some(e)))
          case Ok(body) =>
            match io.unpack(body)
            case Err(e) => CallRun(events, Returned(None, Some(e)))
            case Ok(m) => CallRun(events, Returned(Some(m), None))
  }

  /** The four transport kinds. The DoH dialer is kept but not used by the
      model: the source installs it on a process-wide HTTP client. */
  datatype Caller =
    | UDPCaller(address: string, dialer: Option<Dialer>)
    | TCPCaller(address: string, dialer: Option<Dialer>)
    | TLSCaller(address: string, dialer: Option<Dialer>, client: Client)
    | DoHCaller(url: string, dialer: Option<Dialer>)

  /** NewTLSCaller: a "tcp-tls" client carrying the server name and the
      skip-verification flag. */
  function NewTLSCaller(address: string, dialer: Option<Dialer>, serverName: string, skipVerify: bool): (c: Caller)
    ensures c.TLSCaller? && c.address == address && c.dialer == dialer
    ensures c.client.net == "tcp-tls" && c.client.tls == Some(TLSConfig(serverName, skipVerify))
  {
    TLSCaller(address, dialer, Client("tcp-tls", Some(TLSConfig(serverName, skipVerify))))
  }

  /** Caller.Call on each variant: UDP and TCP callers run `call` with the
      shared "udp" or "tcp" client, a TLS caller with its own client, all with
      the caller's address and dialer; a DoH caller posts to its URL. */
  function CallerCall(c: Caller, request: Option<Msg>, io: Io): (r: CallRun)
    ensures c.UDPCaller? ==> r == Call(Client("udp", None), request, c.address, c.dialer, io)
    ensures c.TCPCaller? ==> r == Call(Client("tcp", None), request, c.address, c.dialer, io)
    ensures c.TLSCaller? ==> r == Call(c.client, request, c.address, c.dialer, io)
    ensures c.DoHCaller? ==> r == DoHCall(c.url, request, io)
    // only a DoH caller can panic, and only on a nil request
    ensures r.outcome.Panicked? <==> c.DoHCaller? && request.None?
  {
    match c
    case UDPCaller(address, dialer) => Call(UdpClient, request, address, dialer, io)
    case TCPCaller(address, dialer) => Call(TcpClient, request, address, dialer, io)
    case TLSCaller(address, dialer, client) => Call(client, request, address, dialer, io)
    case DoHCaller(url, _) => DoHCall(url, request, io)
  }

  /** A caller contacts at most one upstream per call: it never retries. */
  lemma CallerNeverRetries(c: Caller, request: Option<Msg>, io: Io)
    ensures |Targets(CallerCall(c, request, io).events)| <= 1
    ensures CountWhere(CallerCall(c, request, io).events, IsCloseConn) <= 1
  {
  }

  /** Through a proxy, a UDP or TCP caller talks over the raw proxied
      connection and never starts TLS. */
  lemma PlainCallersNeverWrap(c: Caller, request: Option<Msg>, io: Io, i: nat)
    requires c.UDPCaller? || c.TCPCaller?
    requires i < |CallerCall(c, request, io).events|
    requires CallerCall(c, request, io).events[i].WriteMsg?
    ensures CallerCall(c, request, io).events[i].channel.Plain?
  {
  }

  /** Through a proxy, a DNS-over-TLS caller built by NewTLSCaller wraps the
      proxied connection in TLS with exactly the server name and the
      skip-verification flag it was built with. */
  lemma TLSCallerWrapsWithItsServerName(address: string, d: Dialer, serverName: string, skipVerify: bool,
                                        request: Option<Msg>, io: Io)
    requires !Invalid(request, address)
    requires io.dial(d, "tcp", address).Ok?
    ensures
      var run := CallerCall(NewTLSCaller(address, Some(d), serverName, skipVerify), request, io);
      run.events[1] == WriteMsg(Tls(io.dial(d, "tcp", address).value, Some(TLSConfig(serverName, skipVerify))),
                                request.value)
  {
  }
}
