/** DNS messages as the handler and the callers see them, the observable
    events of one request or one call, and the I/O oracle that stands for
    the network, TLS, HTTP and the wire codec. Wire-format packing and
    parsing are not modelled: they are oracle functions that may fail. */
module Dns {
  import opened Base

  newtype byte = x: int | 0 <= x < 256
  type Bytes = seq<byte>

  const TypeA: nat := 1
  const TypeAAAA: nat := 28
  const ClassINET: nat := 1
  const RcodeSuccess: nat := 0
  const OpcodeQuery: nat := 0

  datatype Question = Question(name: string, qtype: nat, qclass: nat)

  /** Only the distinction the handler makes: IPv4 address records versus
      everything else. `ip` is the address in dotted text form. */
  datatype RR = A(owner: string, ip: string) | Other(owner: string, rrtype: nat, data: string)

  datatype Msg = Msg(
    id: nat,
    response: bool,
    opcode: nat,
    recursionDesired: bool,
    checkingDisabled: bool,
    rcode: nat,
    question: seq<Question>,
    answer: seq<RR>,
    extra: seq<RR>)

  /** `new(dns.Msg)`: every field at its zero value. */
  const EmptyMsg := Msg(0, false, OpcodeQuery, false, false, RcodeSuccess, [], [], [])

  /** dns.Msg.SetQuestion on a fresh message: one class-IN question with
      recursion desired. The random message id is not modelled (it is 0). */
  function QueryMsg(name: string, qtype: nat, extra: seq<RR>): (m: Msg)
    ensures m.question == [Question(name, qtype, ClassINET)] && m.recursionDesired
    ensures m.extra == extra && m.answer == [] && !m.response
  {
    EmptyMsg.(question := [Question(name, qtype, ClassINET)], recursionDesired := true, extra := extra)
  }

  /** dns.Msg.SetReply: stamps `m` as the answer to `request` (same id and
      opcode, the response bit, a success rcode, the request's first
      question) and keeps its records. The rd and cd bits are copied only for
      a standard query (opcode QUERY); for any other opcode `m` keeps its own. */
  function SetReply(m: Msg, request: Msg): (r: Msg)
    ensures r.id == request.id && r.opcode == request.opcode && r.response && r.rcode == RcodeSuccess
    ensures request.opcode == OpcodeQuery ==>
      r.recursionDesired == request.recursionDesired && r.checkingDisabled == request.checkingDisabled
    ensures request.opcode != OpcodeQuery ==>
      r.recursionDesired == m.recursionDesired && r.checkingDisabled == m.checkingDisabled
    ensures r.question == (if |request.question| > 0 then [request.question[0]] else m.question)
    ensures r.answer == m.answer && r.extra == m.extra
  {
    var stamped := m.(id := request.id, response := true, opcode := request.opcode,
                      rcode := RcodeSuccess,
                      question := if |request.question| > 0 then [request.question[0]] else m.question);
    if request.opcode == OpcodeQuery then
      stamped.(recursionDesired := request.recursionDesired, checkingDisabled := request.checkingDisabled)
    else stamped
  }

  /** Stamping a reply twice for the same request changes nothing more:
      everything SetReply sets is taken from the request alone. */
  lemma SetReplyIdempotent(m: Msg, request: Msg)
    ensures SetReply(SetReply(m, request), request) == SetReply(m, request)
  {
  }

  datatype Error = EmptyRequest | IoError(reason: string)

  /** What dns.Client.Exchange and dns.Conn.ReadMsg return: a message and an
      error, either of which may be nil, and both of which may be set. */
  datatype Reply = Reply(msg: Option<Msg>, err: Option<Error>)

  datatype TLSConfig = TLSConfig(serverName: string, skipVerify: bool)

  /** dns.Client: the transport name ("udp", "tcp", "tcp-tls", or "" for
      the default) and the optional TLS configuration. */
  datatype Client = Client(net: string, tls: Option<TLSConfig>)

  /** A SOCKS5 proxy dialer. */
  datatype Dialer = Socks5(address: string)

  /** A connection opened through a proxy dialer. */
  datatype Conn = Conn(id: nat)

  /** What a dns.Conn wraps: the proxied connection itself, or a TLS client
      session over it. */
  datatype Channel = Plain(conn: Conn) | Tls(over: Conn, config: Option<TLSConfig>)

  datatype HttpResponse = HttpResponse(id: nat)

  /** Key of the response cache: the question and the request's extra records. */
  datatype CacheKey = CacheKey(question: Question, extra: seq<RR>)

  /** One observable step of a request or of a call. */
  datatype Event =
    | Exchange(client: Client, request: Msg, address: string)
    | Dial(dialer: Dialer, network: string, address: string)
    | WriteMsg(channel: Channel, request: Msg)
    | ReadMsg(channel: Channel)
    | CloseConn(conn: Conn)
    | Post(url: string, contentType: string, body: Bytes)
    | ReadBody(resp: HttpResponse)
    | CloseBody(resp: HttpResponse)
    | HostsLookup(reader: nat, name: string)
    | CacheGet(key: CacheKey)
    | CacheSet(key: CacheKey, stored: Option<Msg>)
    | IPSetAdd(setName: string, ip: string, ttl: int, ok: bool)
    | WriteReply(reply: Msg)
    | CloseWriter

  /** The outside world as seen by one call: each function gives the outcome
      of one operation for the arguments it is given. */
  datatype Io = Io(
    exchange: (Client, Msg, string) -> Reply,
    dial: (Dialer, string, string) -> Result<Conn, Error>,
    write: (Channel, Msg) -> Option<Error>,
    read: Channel -> Reply,
    pack: Msg -> Result<Bytes, Error>,
    post: (string, string, Bytes) -> Result<HttpResponse, Error>,
    readBody: HttpResponse -> Result<Bytes, Error>,
    unpack: Bytes -> Result<Msg, Error>)

  /** The upstream an event contacts: a direct exchange, a proxy dial or an
      HTTP POST. */
  function Target(e: Event): Option<string> {
    match e
    case Exchange(_, _, address) => Some(address)
    case Dial(_, _, address) => Some(address)
    case Post(url, _, _) => Some(url)
    case _ => None
  }

  /** The upstreams a trace contacts, in order. */
  function Targets(events: seq<Event>): seq<string> {
    FilterMap(Target, events)
  }

  predicate IsCloseConn(e: Event) { e.CloseConn? }
  predicate IsReadMsg(e: Event) { e.ReadMsg? }
  predicate IsCloseBody(e: Event) { e.CloseBody? }
  predicate IsWriteReply(e: Event) { e.WriteReply? }
  predicate IsCloseWriter(e: Event) { e.CloseWriter? }

  /** An event of the work before the reply: anything but writing the reply
      or closing the response writer. */
  predicate BeforeReply(e: Event) { !e.WriteReply? && !e.CloseWriter? }

  function AddedAddress(e: Event): Option<string> {
    if e.IPSetAdd? then Some(e.ip) else None
  }

  /** The addresses a trace adds to IPSets, in order. */
  function AddedAddresses(events: seq<Event>): seq<string> {
    FilterMap(AddedAddress, events)
  }

  function CacheWrite(e: Event): Option<(CacheKey, Option<Msg>)> {
    if e.CacheSet? then Some((e.key, e.stored)) else None
  }

  /** The cache writes of a trace, as (key, stored message) pairs in order. */
  function CacheWrites(events: seq<Event>): seq<(CacheKey, Option<Msg>)> {
    FilterMap(CacheWrite, events)
  }

  /** The address an IPv4 record carries. */
  function AddressOf(rr: RR): Option<string> {
    if rr.A? then Some(rr.ip) else None
  }
}
