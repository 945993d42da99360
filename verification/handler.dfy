/** The request handler of ts-dns.go: `handler.ServeDNS` and `queryDns`.
    One request runs as a linear state machine: loop guard, hosts, cache,
    route, ordered fallback dispatch (every attempt writing the cache),
    IPSet write-back, reply, close. The hosts readers, the cache, the
    classifier, the IPSet and the network are parameters; the result is the
    trace of what the handler did and how it ended. */
module Handler {
  import opened Base
  import opened Strs
  import opened Dns
  import opened Router

  /** The label a query name carries each time it passes back through this
      resolver; two of them mean a forwarding loop. */
  const LoopMarker := ".ne-"

  /** The zero-value dns.Client queryDns uses: the library's default transport. */
  const DefaultClient := Client("", None)

  /** A routing group as the handler reads it: upstream addresses in
      order, an optional proxy, an optional IPSet with its TTL. */
  datatype HandlerGroup = HandlerGroup(servers: seq<string>, dialer: Option<Dialer>, ipset: Option<string>, ipsetTTL: int)

  /** A hosts source: GenRecord(name, qtype), "" when it has no record. */
  type HostsReader = (string, nat) -> string

  /** Everything ServeDNS reads besides the request. */
  datatype Env = Env(
    hostsReaders: seq<HostsReader>,
    newRR: string -> Option<RR>,
    cacheGet: CacheKey -> Option<Msg>,
    suffixTable: map<string, string>,
    suffixOrder: seq<string>,
    classify: Classifier,
    groups: map<string, HandlerGroup>,
    io: Io,
    ipsetAdd: (string, string, int) -> bool)

  ghost predicate WellFormed(env: Env) {
    IsIterationOrder(env.suffixOrder, env.suffixTable)
  }

  /** How a request ends: normally; by log.Fatalln, which exits the process
      without running deferred calls; or by a run-time panic, after which the
      deferred close still runs. */
  datatype Exit = Finished | Halted | Crashed

  /** What one request did, phase by phase, and how it ended. `final` is the
      message the deferred reply writes (r at the time ServeDNS returns). */
  datatype Served = Served(
    hosts: seq<Event>,
    lookup: seq<Event>,
    dispatch: seq<Event>,
    writeBack: seq<Event>,
    respond: seq<Event>,
    final: Option<Msg>,
    exit: Exit)

  /** The whole trace of a request, in order. */
  function Trace(s: Served): seq<Event> {
    s.hosts + (s.lookup + (s.dispatch + (s.writeBack + s.respond)))
  }

  /** A request stopped by the loop guard: the process exits before anything
      else happens, the deferred close included. */
  const HaltedRun := Served([], [], [], [], [], None, Halted)

  /** Each phase holds only its own kind of step. */
  ghost predicate PhasesWellFormed(s: Served) {
    && (forall k :: 0 <= k < |s.hosts| ==> s.hosts[k].HostsLookup?)
    && (forall k :: 0 <= k < |s.lookup| ==> s.lookup[k].CacheGet?)
    && (forall k :: 0 <= k < |s.dispatch| ==> IsUpstreamStep(s.dispatch[k]))
    && (forall k :: 0 <= k < |s.writeBack| ==> s.writeBack[k].IPSetAdd?)
  }

  /** What queryDns may do: contact an upstream, talk over the connection,
      write the cache, close the connection. */
  predicate IsUpstreamStep(e: Event) {
    e.Exchange? || e.Dial? || e.WriteMsg? || e.ReadMsg? || e.CacheSet? || e.CloseConn?
  }

  // ---------------------------------------------------------------------
  // Loop guard
  // ---------------------------------------------------------------------

  /** The marker occurs somewhere in the name. */
  ghost predicate Occurs(s: string) {
    exists i :: OccursAt(s, LoopMarker, i)
  }

  /** The marker occurs at two distinct places in the name. */
  ghost predicate OccursTwice(s: string) {
    exists i, j :: i < j && OccursAt(s, LoopMarker, i) && OccursAt(s, LoopMarker, j)
  }

  /** Two occurrences of the marker never overlap: its first character does
      not occur again inside it. */
  lemma MarkerOccurrencesApart(s: string, i: int, j: int)
    requires OccursAt(s, LoopMarker, i) && OccursAt(s, LoopMarker, j) && i < j
    ensures j >= i + |LoopMarker|
  {
    assert s[j] == s[j..j + |LoopMarker|][0] == '.';
    forall k | i < k < i + |LoopMarker| && k < |s|
      ensures s[k] != '.'
    {
      assert s[k] == s[i..i + |LoopMarker|][k - i];
    }
  }

  /** An occurrence in s[d..] is an occurrence in s, d places later. */
  lemma OccursShift(s: string, d: int, i: int)
    requires 0 <= d <= |s| && i >= 0
    ensures OccursAt(s[d..], LoopMarker, i) <==> OccursAt(s, LoopMarker, i + d)
  {
    if i + d + |LoopMarker| <= |s| {
      assert s[d..][i..i + |LoopMarker|] == s[i + d..i + d + |LoopMarker|];
    }
  }

  /** Past a first character where the marker does not start, occurrences
      are those of the rest. */
  lemma OccursPastHead(s: string)
    requires |s| >= 1 && !OccursAt(s, LoopMarker, 0)
    ensures Occurs(s) <==> Occurs(s[1..])
  {
    if Occurs(s) {
      var i :| OccursAt(s, LoopMarker, i);
      OccursShift(s, 1, i - 1);
    }
    if Occurs(s[1..]) {
      var i :| OccursAt(s[1..], LoopMarker, i);
      OccursShift(s, 1, i);
    }
  }

  /** The same for two occurrences. */
  lemma OccursTwicePastHead(s: string)
    requires |s| >= 1 && !OccursAt(s, LoopMarker, 0)
    ensures OccursTwice(s) <==> OccursTwice(s[1..])
  {
    if OccursTwice(s) {
      var i, j :| i < j && OccursAt(s, LoopMarker, i) && OccursAt(s, LoopMarker, j);
      OccursShift(s, 1, i - 1);
      OccursShift(s, 1, j - 1);
    }
    if OccursTwice(s[1..]) {
      var i, j :| i < j && OccursAt(s[1..], LoopMarker, i) && OccursAt(s[1..], LoopMarker, j);
      OccursShift(s, 1, i);
      OccursShift(s, 1, j);
    }
  }

  /** When the name starts with the marker, a second occurrence is one in
      what follows the first. */
  lemma OccursTwiceAfterHead(s: string)
    requires OccursAt(s, LoopMarker, 0)
    ensures OccursTwice(s) <==> Occurs(s[|LoopMarker|..])
  {
    var m := |LoopMarker|;
    if OccursTwice(s) {
      var i, j :| i < j && OccursAt(s, LoopMarker, i) && OccursAt(s, LoopMarker, j);
      MarkerOccurrencesApart(s, i, j);
      OccursShift(s, m, j - m);
    }
    if Occurs(s[m..]) {
      var k :| OccursAt(s[m..], LoopMarker, k);
      OccursShift(s, m, k);
      assert OccursAt(s, LoopMarker, 0) && OccursAt(s, LoopMarker, k + m);
    }
  }

  /** strings.Count finds the marker at all iff it occurs somewhere. */
  lemma {:induction false} CountPositive(s: string)
    ensures Count(s, LoopMarker) >= 1 <==> Occurs(s)
    decreases |s|
  {
    if |s| < |LoopMarker| {
      assert forall i :: !OccursAt(s, LoopMarker, i);
    } else if s[..|LoopMarker|] == LoopMarker {
      assert OccursAt(s, LoopMarker, 0);
    } else {
      assert !OccursAt(s, LoopMarker, 0) by {
        assert s[0..|LoopMarker|] == s[..|LoopMarker|];
      }
      CountPositive(s[1..]);
      OccursPastHead(s);
    }
  }

  /** strings.Count reports more than one marker iff the name holds two
      distinct occurrences of it. */
  lemma {:induction false} CountAtLeastTwo(s: string)
    ensures Count(s, LoopMarker) > 1 <==> OccursTwice(s)
    decreases |s|
  {
    if |s| < |LoopMarker| {
      assert forall i :: !OccursAt(s, LoopMarker, i);
    } else if s[..|LoopMarker|] == LoopMarker {
      assert OccursAt(s, LoopMarker, 0) by {
        assert s[0..|LoopMarker|] == s[..|LoopMarker|];
      }
      CountPositive(s[|LoopMarker|..]);
      OccursTwiceAfterHead(s);
    } else {
      assert !OccursAt(s, LoopMarker, 0) by {
        assert s[0..|LoopMarker|] == s[..|LoopMarker|];
      }
      CountAtLeastTwo(s[1..]);
      OccursTwicePastHead(s);
    }
  }

  // ---------------------------------------------------------------------
  // Hosts
  // ---------------------------------------------------------------------

  /** Hosts applies to address queries only. */
  predicate IsAddressQuery(q: Question) {
    q.qtype == TypeA || q.qtype == TypeAAAA
  }

  /** What one reader yields: the name without its last character (the root
      dot) first, the full name if that gives nothing. */
  function HostsRecord(reader: HostsReader, q: Question): (r: string)
    requires |q.name| > 0
    // a record for the cut name wins; the full name is only a fallback
    ensures reader(q.name[..|q.name| - 1], q.qtype) != "" ==> r == reader(q.name[..|q.name| - 1], q.qtype)
    ensures reader(q.name[..|q.name| - 1], q.qtype) == "" ==> r == reader(q.name, q.qtype)
    ensures r == "" <==> reader(q.name[..|q.name| - 1], q.qtype) == "" && reader(q.name, q.qtype) == ""
  {
    var first := reader(q.name[..|q.name| - 1], q.qtype);
    if first != "" then first else reader(q.name, q.qtype)
  }

  /** The message a hosts record becomes: one answer, or nil when the record
      does not parse. */
  function HostsAnswer(newRR: string -> Option<RR>, record: string): (r: Option<Msg>)
    ensures r.Some? <==> newRR(record).Some?
    ensures r.Some? ==> r.value.answer == [newRR(record).value]
  {
    match newRR(record)
    case Some(rr) => Some(EmptyMsg.(answer := [rr]))
    case None => None
  }

  /** The lookups reader `j` makes: the cut name, then the full name when the
      cut one gave nothing. */
  function ReaderLookups(reader: HostsReader, j: nat, q: Question): seq<Event>
    requires |q.name| > 0
  {
    var cut := q.name[..|q.name| - 1];
    [HostsLookup(j, cut)] + (if reader(cut, q.qtype) == "" then [HostsLookup(j, q.name)] else [])
  }

  /** The lookups of readers i .. n-1, one reader after the other. */
  function LookupsOf(readers: seq<HostsReader>, q: Question, i: nat, n: nat): seq<Event>
    requires i <= n <= |readers| && |q.name| > 0
    decreases n - i
  {
    if i == n then [] else ReaderLookups(readers[i], i, q) + LookupsOf(readers, q, i + 1, n)
  }

  datatype HostsOutcome =
    | HostsMiss(events: seq<Event>)
    | HostsHit(events: seq<Event>, reader: nat, answer: Option<Msg>)
    | HostsCrash(events: seq<Event>)

  /** The hosts loop from reader `i` on. */
  function LookupHosts(readers: seq<HostsReader>, newRR: string -> Option<RR>, q: Question, i: nat): (h: HostsOutcome)
    requires i <= |readers|
    // an empty name cannot be cut: the first reader panics
    ensures h.HostsCrash? <==> i < |readers| && q.name == ""
    ensures h.HostsCrash? ==> h.events == []
    // the first reader with a record ends the loop, with that record parsed
    ensures h.HostsHit? ==>
      && i <= h.reader < |readers| && q.name != ""
      && HostsRecord(readers[h.reader], q) != ""
      && (forall j :: i <= j < h.reader ==> HostsRecord(readers[j], q) == "")
      && h.answer == HostsAnswer(newRR, HostsRecord(readers[h.reader], q))
    ensures h.HostsMiss? ==> forall j :: i <= j < |readers| ==> q.name != "" && HostsRecord(readers[j], q) == ""
    // readers are asked in order, each first with the cut name
    ensures forall k :: 0 <= k < |h.events| ==> h.events[k].HostsLookup? && i <= h.events[k].reader
    ensures forall k, l :: 0 <= k < l < |h.events| ==> h.events[k].reader <= h.events[l].reader
    ensures i < |readers| && q.name != "" ==>
      |h.events| >= 1 && h.events[0] == HostsLookup(i, q.name[..|q.name| - 1])
    ensures i < |readers| && q.name != "" && readers[i](q.name[..|q.name| - 1], q.qtype) == "" ==>
      |h.events| >= 2 && h.events[1] == HostsLookup(i, q.name)
    decreases |readers| - i
  {
    if i == |readers| then HostsMiss([])
    else if q.name == "" then HostsCrash([])
    else
      var cut := q.name[..|q.name| - 1];
      var first := readers[i](cut, q.qtype);
      var asked := [HostsLookup(i, cut)] + (if first == "" then [HostsLookup(i, q.name)] else []);
      var record := HostsRecord(readers[i], q);
      if record != "" then HostsHit(asked, i, HostsAnswer(newRR, record))
      else
        match LookupHosts(readers, newRR, q, i + 1)
        case HostsMiss(rest) => HostsMiss(asked + rest)
        case HostsHit(rest, k, answer) => HostsHit(asked + rest, k, answer)
        case HostsCrash(rest) => HostsCrash(asked + rest)
  }

  /** The exact hosts trace: every asked reader's lookups, in reader order,
      up to the reader with a record or to the end. */
  lemma {:induction false} LookupHostsTrace(readers: seq<HostsReader>, newRR: string -> Option<RR>, q: Question, i: nat)
    requires i <= |readers|
    ensures LookupHosts(readers, newRR, q, i).HostsHit? ==>
      LookupHosts(readers, newRR, q, i).events == LookupsOf(readers, q, i, LookupHosts(readers, newRR, q, i).reader + 1)
    ensures LookupHosts(readers, newRR, q, i).HostsMiss? ==>
      LookupHosts(readers, newRR, q, i).events == (if q.name == "" then [] else LookupsOf(readers, q, i, |readers|))
    decreases |readers| - i
  {
    if i < |readers| && q.name != "" {
      var asked := ReaderLookups(readers[i], i, q);
      if HostsRecord(readers[i], q) != "" {
        assert LookupsOf(readers, q, i, i + 1) == asked + [];
      } else {
        LookupHostsTrace(readers, newRR, q, i + 1);
        var rest := LookupHosts(readers, newRR, q, i + 1);
        assert LookupHosts(readers, newRR, q, i).events == asked + rest.events;
      }
    }
  }

  /** The hosts stage of a request: the loop for address queries, nothing
      otherwise. */
  function Hosts(env: Env, q: Question): (h: HostsOutcome)
    ensures !IsAddressQuery(q) ==> h == HostsMiss([])
    ensures h.HostsCrash? <==> IsAddressQuery(q) && q.name == "" && |env.hostsReaders| > 0
    ensures h.HostsHit? ==>
      && IsAddressQuery(q) && h.reader < |env.hostsReaders| && q.name != ""
      && h.events == LookupsOf(env.hostsReaders, q, 0, h.reader + 1)
      && h.answer == HostsAnswer(env.newRR, HostsRecord(env.hostsReaders[h.reader], q))
  {
    LookupHostsTrace(env.hostsReaders, env.newRR, q, 0);
    if IsAddressQuery(q) then LookupHosts(env.hostsReaders, env.newRR, q, 0) else HostsMiss([])
  }

  // ---------------------------------------------------------------------
  // One upstream attempt and the fallback loop
  // ---------------------------------------------------------------------

  datatype Attempt = Attempt(events: seq<Event>, msg: Option<Msg>, err: Option<Error>)

  /** The steps between the first contact and the cache write. */
  predicate IsWireStep(e: Event) { e.WriteMsg? || e.ReadMsg? }

  /** The shape every attempt has: one contact, wire steps, one cache write,
      at most one close. */
  lemma AttemptShape(first: Event, middle: seq<Event>, key: CacheKey, r: Option<Msg>, closing: seq<Event>, server: string)
    requires (first.Exchange? || first.Dial?) && Target(first) == Some(server)
    requires forall k :: 0 <= k < |middle| ==> IsWireStep(middle[k])
    requires |closing| <= 1 && forall k :: 0 <= k < |closing| ==> closing[k].CloseConn?
    ensures Targets([first] + middle + [CacheSet(key, r)] + closing) == [server]
    ensures CacheWrites([first] + middle + [CacheSet(key, r)] + closing) == [(key, r)]
    ensures CountWhere([first] + middle + [CacheSet(key, r)] + closing, IsCloseConn) == |closing|
    ensures forall k :: 0 <= k < |[first] + middle + [CacheSet(key, r)] + closing| ==>
      IsUpstreamStep(([first] + middle + [CacheSet(key, r)] + closing)[k])
  {
    var a := [first] + middle;
    var b := [CacheSet(key, r)] + closing;
    assert [first] + middle + [CacheSet(key, r)] + closing == a + b;
    FilterMapNone(Target, middle);
    FilterMapNone(CacheWrite, middle);
    FilterMapNone(Target, closing);
    FilterMapNone(CacheWrite, closing);
    FilterMapCons(Target, first, middle);
    FilterMapCons(CacheWrite, first, middle);
    FilterMapCons(Target, CacheSet(key, r), closing);
    FilterMapCons(CacheWrite, CacheSet(key, r), closing);
    FilterMapAppend(Target, a, b);
    FilterMapAppend(CacheWrite, a, b);
    CountWhereCons(first, middle, IsCloseConn);
    CountWhereCons(CacheSet(key, r), closing, IsCloseConn);
    if |closing| == 1 {
      CountWhereOne(closing, IsCloseConn, 0);
    }
    CountWhereAppend(a, b, IsCloseConn);
  }

  /** queryDns: a fresh query for the question, sent directly or over a
      proxied connection; on every way out the result, nil included, is
      written to the cache, and then the proxied connection is closed. */
  function QueryDns(io: Io, q: Question, server: string, extra: seq<RR>, dialer: Option<Dialer>): (a: Attempt)
    // one upstream, contacted once
    ensures Targets(a.events) == [server]
    // the outcome is cached under the question and the extra records, nil included
    ensures CacheWrites(a.events) == [(CacheKey(q, extra), a.msg)]
    ensures forall k :: 0 <= k < |a.events| ==> IsUpstreamStep(a.events[k])
    // an opened connection is closed exactly once, as the last step
    ensures CountWhere(a.events, IsCloseConn) ==
      (if dialer.Some? && io.dial(dialer.value, "tcp", server).Ok? then 1 else 0)
    ensures dialer.Some? && io.dial(dialer.value, "tcp", server).Ok? ==>
      a.events[|a.events| - 1] == CloseConn(io.dial(dialer.value, "tcp", server).value)
  {
    var request := QueryMsg(q.name, q.qtype, extra);
    match dialer
    case None => Direct(io, request, CacheKey(q, extra), server)
    case Some(d) => Proxied(io, request, CacheKey(q, extra), server, d)
  }

  /** queryDns without a proxy: the library client's exchange, then the
      cache write. */
  function Direct(io: Io, request: Msg, key: CacheKey, server: string): (a: Attempt)
    ensures Targets(a.events) == [server]
    ensures CacheWrites(a.events) == [(key, a.msg)]
    ensures forall k :: 0 <= k < |a.events| ==> IsUpstreamStep(a.events[k])
    ensures CountWhere(a.events, IsCloseConn) == 0
  {
    var rep := io.exchange(DefaultClient, request, server);
    var first := Exchange(DefaultClient, request, server);
    AttemptShape(first, [], key, rep.msg, [], server);
    Attempt([first] + [] + [CacheSet(key, rep.msg)] + [], rep.msg, rep.err)
  }

  /** queryDns through a proxy: dial over TCP, write, read; the cache write
      comes before the close of an opened connection. */
  function Proxied(io: Io, request: Msg, key: CacheKey, server: string, d: Dialer): (a: Attempt)
    ensures Targets(a.events) == [server]
    ensures CacheWrites(a.events) == [(key, a.msg)]
    ensures forall k :: 0 <= k < |a.events| ==> IsUpstreamStep(a.events[k])
    ensures CountWhere(a.events, IsCloseConn) == (if io.dial(d, "tcp", server).Ok? then 1 else 0)
    ensures io.dial(d, "tcp", server).Ok? ==>
      a.events[|a.events| - 1] == CloseConn(io.dial(d, "tcp", server).value)
  {
    var first := Dial(d, "tcp", server);
    match io.dial(d, "tcp", server)
    case Err(e) =>
      AttemptShape(first, [], key, None, [], server);
      Attempt([first] + [] + [CacheSet(key, None)] + [], None, Some(e))
    case Ok(conn) =>
      var ch := Plain(conn);
      match io.write(ch, request)
      case Some(e) =>
        AttemptShape(first, [WriteMsg(ch, request)], key, None, [CloseConn(conn)], server);
        Attempt([first] + [WriteMsg(ch, request)] + [CacheSet(key, None)] + [CloseConn(conn)], None, Some(e))
      case None =>
        var rep := io.read(ch);
        AttemptShape(first, [WriteMsg(ch, request), ReadMsg(ch)], key, rep.msg, [CloseConn(conn)], server);
        Attempt([first] + [WriteMsg(ch, request), ReadMsg(ch)] + [CacheSet(key, rep.msg)] + [CloseConn(conn)],
                rep.msg, rep.err)
  }


  /** Where the answer of one attempt comes from. Without a proxy it is the
      library client's exchange of a recursive query for the question; with
      one, the proxy is dialled over TCP first, and an answer needs both the
      dial and the write to succeed and is what the read returns. */
  lemma QueryDnsPaths(io: Io, q: Question, server: string, extra: seq<RR>, dialer: Option<Dialer>)
    ensures var a := QueryDns(io, q, server, extra, dialer);
      var request := QueryMsg(q.name, q.qtype, extra);
      && (dialer.None? ==>
            && a.events[0] == Exchange(DefaultClient, request, server)
            && a.msg == io.exchange(DefaultClient, request, server).msg
            && a.err == io.exchange(DefaultClient, request, server).err)
      && (dialer.Some? ==> a.events[0] == Dial(dialer.value, "tcp", server))
      && (dialer.Some? && io.dial(dialer.value, "tcp", server).Err? ==>
            a.msg.None? && a.err == Some(io.dial(dialer.value, "tcp", server).error))
      && (dialer.Some? && io.dial(dialer.value, "tcp", server).Ok? ==>
            var ch := Plain(io.dial(dialer.value, "tcp", server).value);
            a.msg == (if io.write(ch, request).None? then io.read(ch).msg else None))
  {
  }

  /** `n` cache writes of a nil result under `key`. */
  function NilWrites(key: CacheKey, n: nat): seq<(CacheKey, Option<Msg>)> {
    if n == 0 then [] else [(key, None)] + NilWrites(key, n - 1)
  }

  datatype Fallback = Fallback(events: seq<Event>, msg: Option<Msg>, tried: nat)

  /** The dispatch loop: servers strictly in order, each at most once,
      stopping at the first non-nil message whatever error came with it. */
  function Dispatch(io: Io, q: Question, extra: seq<RR>, servers: seq<string>, dialer: Option<Dialer>): (d: Fallback)
    ensures d.tried <= |servers|
    ensures |servers| > 0 ==> d.tried >= 1
    // every attempt before the last gave nil
    ensures forall j :: 0 <= j < d.tried - 1 ==> QueryDns(io, q, servers[j], extra, dialer).msg.None?
    // the result is the last attempt's message
    ensures d.tried > 0 ==> d.msg == QueryDns(io, q, servers[d.tried - 1], extra, dialer).msg
    ensures d.tried == 0 ==> d.msg.None?
    // no message means every server was tried
    ensures d.msg.None? ==> d.tried == |servers|
    decreases |servers|
  {
    if |servers| == 0 then Fallback([], None, 0)
    else
      var a := QueryDns(io, q, servers[0], extra, dialer);
      if a.msg.Some? then Fallback(a.events, a.msg, 1)
      else
        var rest := Dispatch(io, q, extra, servers[1..], dialer);
        DropOne(servers);
        Fallback(a.events + rest.events, rest.msg, rest.tried + 1)
  }

  /** Server j of the rest is server j + 1 of the whole list. */
  lemma DropOne(servers: seq<string>)
    requires |servers| > 0
    ensures forall j :: 1 <= j < |servers| ==> servers[1..][j - 1] == servers[j]
  {
  }

  /** Exactly the first `tried` servers were contacted, in order, once each. */
  lemma {:induction false} DispatchTargets(io: Io, q: Question, extra: seq<RR>, servers: seq<string>,
                                           dialer: Option<Dialer>)
    ensures Targets(Dispatch(io, q, extra, servers, dialer).events) ==
      servers[..Dispatch(io, q, extra, servers, dialer).tried]
    decreases |servers|
  {
    if |servers| > 0 {
      if QueryDns(io, q, servers[0], extra, dialer).msg.None? {
        DispatchTargets(io, q, extra, servers[1..], dialer);
        TargetsAfterNil(io, q, extra, servers, dialer);
      } else {
        assert servers[..1] == [servers[0]];
      }
    }
  }

  /** The first n + 1 servers are the first one and the first n of the rest. */
  lemma PrefixStep(servers: seq<string>, n: nat)
    requires n < |servers|
    ensures servers[..n + 1] == [servers[0]] + servers[1..][..n]
  {
  }

  /** The step of DispatchTargets. */
  lemma TargetsAfterNil(io: Io, q: Question, extra: seq<RR>, servers: seq<string>, dialer: Option<Dialer>)
    requires |servers| > 0 && QueryDns(io, q, servers[0], extra, dialer).msg.None?
    requires Targets(Dispatch(io, q, extra, servers[1..], dialer).events) ==
      servers[1..][..Dispatch(io, q, extra, servers[1..], dialer).tried]
    ensures Targets(Dispatch(io, q, extra, servers, dialer).events) ==
      servers[..Dispatch(io, q, extra, servers, dialer).tried]
  {
    var a := QueryDns(io, q, servers[0], extra, dialer);
    var rest := Dispatch(io, q, extra, servers[1..], dialer);
    DispatchAfterNil(io, q, extra, servers, dialer);
    FilterMapAppend(Target, a.events, rest.events);
    PrefixStep(servers, rest.tried);
  }

  /** Dispatch does nothing but upstream work. */
  lemma {:induction false} DispatchIsUpstreamWork(io: Io, q: Question, extra: seq<RR>, servers: seq<string>,
                                                  dialer: Option<Dialer>)
    ensures forall k :: 0 <= k < |Dispatch(io, q, extra, servers, dialer).events| ==>
      IsUpstreamStep(Dispatch(io, q, extra, servers, dialer).events[k])
    decreases |servers|
  {
    if |servers| > 0 {
      var a := QueryDns(io, q, servers[0], extra, dialer);
      if a.msg.None? {
        var rest := Dispatch(io, q, extra, servers[1..], dialer);
        DispatchIsUpstreamWork(io, q, extra, servers[1..], dialer);
        assert Dispatch(io, q, extra, servers, dialer).events == a.events + rest.events;
        UpstreamAppend(a.events, rest.events);
      }
    }
  }

  lemma UpstreamAppend(xs: seq<Event>, ys: seq<Event>)
    requires forall k :: 0 <= k < |xs| ==> IsUpstreamStep(xs[k])
    requires forall k :: 0 <= k < |ys| ==> IsUpstreamStep(ys[k])
    ensures forall k :: 0 <= k < |xs + ys| ==> IsUpstreamStep((xs + ys)[k])
  {
  }

  /** Every attempt wrote its outcome to the cache under the request's key:
      nil for all but the last, the result for the last. */
  lemma {:induction false} DispatchCacheWrites(io: Io, q: Question, extra: seq<RR>, servers: seq<string>,
                                               dialer: Option<Dialer>)
    requires |servers| > 0
    ensures CachedInOrder(CacheKey(q, extra), Dispatch(io, q, extra, servers, dialer))
    decreases |servers|
  {
    var a := QueryDns(io, q, servers[0], extra, dialer);
    if a.msg.None? && |servers| > 1 {
      var rest := Dispatch(io, q, extra, servers[1..], dialer);
      DispatchCacheWrites(io, q, extra, servers[1..], dialer);
      CachedAfterNil(CacheKey(q, extra), a.events, rest);
      DispatchAfterNil(io, q, extra, servers, dialer);
      assert Dispatch(io, q, extra, servers, dialer) == Fallback(a.events + rest.events, rest.msg, rest.tried + 1);
    } else {
      DispatchOfOne(io, q, extra, servers, dialer);
      assert NilWrites(CacheKey(q, extra), 0) + [(CacheKey(q, extra), a.msg)] == [(CacheKey(q, extra), a.msg)];
    }
  }

  /** The cache writes of a dispatch: a nil write for each attempt but the
      last, then the last attempt's message, all under one key. */
  predicate CachedInOrder(key: CacheKey, d: Fallback) {
    d.tried >= 1 && CacheWrites(d.events) == NilWrites(key, d.tried - 1) + [(key, d.msg)]
  }

  /** The step of DispatchCacheWrites: an attempt that wrote nil, in front of
      a dispatch that caches in order, still caches in order. */
  lemma CachedAfterNil(key: CacheKey, first: seq<Event>, rest: Fallback)
    requires CacheWrites(first) == [(key, None)] && CachedInOrder(key, rest)
    ensures CachedInOrder(key, Fallback(first + rest.events, rest.msg, rest.tried + 1))
  {
    ConsNilWrite(key, rest.tried, rest.msg, CacheWrites(rest.events));
    FilterMapAppend(CacheWrite, first, rest.events);
  }

  lemma DispatchAfterNil(io: Io, q: Question, extra: seq<RR>, servers: seq<string>, dialer: Option<Dialer>)
    requires |servers| > 0 && QueryDns(io, q, servers[0], extra, dialer).msg.None?
    ensures Dispatch(io, q, extra, servers, dialer) ==
      Fallback(QueryDns(io, q, servers[0], extra, dialer).events + Dispatch(io, q, extra, servers[1..], dialer).events,
               Dispatch(io, q, extra, servers[1..], dialer).msg,
               Dispatch(io, q, extra, servers[1..], dialer).tried + 1)
  {
  }

  /** Dispatch that ends with its first attempt. */
  lemma DispatchOfOne(io: Io, q: Question, extra: seq<RR>, servers: seq<string>, dialer: Option<Dialer>)
    requires |servers| > 0
    requires QueryDns(io, q, servers[0], extra, dialer).msg.Some? || |servers| == 1
    ensures Dispatch(io, q, extra, servers, dialer) ==
      Fallback(QueryDns(io, q, servers[0], extra, dialer).events, QueryDns(io, q, servers[0], extra, dialer).msg, 1)
  {
    var a := QueryDns(io, q, servers[0], extra, dialer);
    if a.msg.None? {
      assert servers[1..] == [];
      assert Dispatch(io, q, extra, servers[1..], dialer) == Fallback([], None, 0);
      assert a.events + [] == a.events;
    }
  }

  /** One more nil write in front of a dispatch's writes. */
  lemma ConsNilWrite(key: CacheKey, n: nat, m: Option<Msg>, writes: seq<(CacheKey, Option<Msg>)>)
    requires n > 0 && writes == NilWrites(key, n - 1) + [(key, m)]
    ensures [(key, None)] + writes == NilWrites(key, n) + [(key, m)]
  {
    assert [(key, None)] + (NilWrites(key, n - 1) + [(key, m)]) == ([(key, None)] + NilWrites(key, n - 1)) + [(key, m)];
  }

  /** The first server that answers is the last one asked, and its answer
      is the result. */
  lemma FirstAnswerWins(io: Io, q: Question, extra: seq<RR>, servers: seq<string>, dialer: Option<Dialer>, k: nat)
    requires k < |servers|
    requires forall j :: 0 <= j < k ==> QueryDns(io, q, servers[j], extra, dialer).msg.None?
    requires QueryDns(io, q, servers[k], extra, dialer).msg.Some?
    ensures Dispatch(io, q, extra, servers, dialer).tried == k + 1
    ensures Dispatch(io, q, extra, servers, dialer).msg == QueryDns(io, q, servers[k], extra, dialer).msg
    ensures Targets(Dispatch(io, q, extra, servers, dialer).events) == servers[..k + 1]
  {
    var d := Dispatch(io, q, extra, servers, dialer);
    if d.tried < k + 1 {
      assert false;
    }
    if d.tried > k + 1 {
      assert false;
    }
    DispatchTargets(io, q, extra, servers, dialer);
  }

  // ---------------------------------------------------------------------
  // IPSet write-back and the reply
  // ---------------------------------------------------------------------

  /** One add per IPv4 answer, in answer order, into the group's set with
      the group's TTL; a failed add is recorded and the loop goes on. */
  function IPSetAdds(ipsetAdd: (string, string, int) -> bool, setName: string, ttl: int, answers: seq<RR>): (adds: seq<Event>)
    ensures AddedAddresses(adds) == FilterMap(AddressOf, answers)
    ensures forall k :: 0 <= k < |adds| ==>
      && adds[k].IPSetAdd? && adds[k].setName == setName && adds[k].ttl == ttl
      && adds[k].ok == ipsetAdd(setName, adds[k].ip, ttl)
    decreases |answers|
  {
    if |answers| == 0 then []
    else
      var rest := IPSetAdds(ipsetAdd, setName, ttl, answers[1..]);
      var here := if answers[0].A?
        then [IPSetAdd(setName, answers[0].ip, ttl, ipsetAdd(setName, answers[0].ip, ttl))]
        else [];
      FilterMapAppend(AddedAddress, here, rest);
      FilterMapCons(AddressOf, answers[0], answers[1..]);
      assert answers == [answers[0]] + answers[1..];
      here + rest
  }

  /** The deferred part of ServeDNS: write the message stamped as the reply
      if there is one, then close the writer. */
  function Respond(r: Option<Msg>, request: Msg): (ev: seq<Event>)
    ensures |ev| >= 1 && ev[|ev| - 1] == CloseWriter
    ensures CountWhere(ev, IsCloseWriter) == 1
    ensures CountWhere(ev, IsWriteReply) == (if r.Some? then 1 else 0)
    ensures r.Some? ==> ev[0] == WriteReply(SetReply(r.value, request))
    ensures forall k :: 0 <= k < |ev| ==> !BeforeReply(ev[k])
  {
    if r.Some? then
      var ev := [WriteReply(SetReply(r.value, request)), CloseWriter];
      CountWhereOne(ev, IsCloseWriter, 1);
      CountWhereOne(ev, IsWriteReply, 0);
      ev
    else
      CountWhereOne([CloseWriter], IsCloseWriter, 0);
      [CloseWriter]
  }

  /** The work before the reply never writes a reply or closes the writer,
      so the deferred part is the only place either happens. */
  lemma ReplyAtTheEnd(s: Served, request: Msg)
    requires PhasesWellFormed(s) && s.respond == Respond(s.final, request)
    ensures |Trace(s)| >= 1 && Trace(s)[|Trace(s)| - 1] == CloseWriter
    ensures CountWhere(Trace(s), IsCloseWriter) == 1
    ensures CountWhere(Trace(s), IsWriteReply) == (if s.final.Some? then 1 else 0)
  {
    QuietPhase(s.hosts);
    QuietPhase(s.lookup);
    QuietPhase(s.dispatch);
    QuietPhase(s.writeBack);
    CountOnlyInLast(s.hosts, s.lookup, s.dispatch, s.writeBack, s.respond, IsCloseWriter);
    CountOnlyInLast(s.hosts, s.lookup, s.dispatch, s.writeBack, s.respond, IsWriteReply);
    var t1 := s.lookup + (s.dispatch + (s.writeBack + s.respond));
    LastOfAppend(s.hosts, t1);
    LastOfAppend(s.lookup, s.dispatch + (s.writeBack + s.respond));
    LastOfAppend(s.dispatch, s.writeBack + s.respond);
    LastOfAppend(s.writeBack, s.respond);
  }

  /** When only the last of five pieces has events satisfying `p`, they are
      all the whole has. */
  lemma CountOnlyInLast(a: seq<Event>, b: seq<Event>, c: seq<Event>, d: seq<Event>, e: seq<Event>, p: Event -> bool)
    requires CountWhere(a, p) == 0 && CountWhere(b, p) == 0 && CountWhere(c, p) == 0 && CountWhere(d, p) == 0
    ensures CountWhere(a + (b + (c + (d + e))), p) == CountWhere(e, p)
  {
    CountWhereAppend(d, e, p);
    CountWhereAppend(c, d + e, p);
    CountWhereAppend(b, c + (d + e), p);
    CountWhereAppend(a, b + (c + (d + e)), p);
  }


  lemma LastOfAppend(xs: seq<Event>, ys: seq<Event>)
    requires |ys| > 0
    ensures (xs + ys)[|xs + ys| - 1] == ys[|ys| - 1]
  {
  }

  /** A phase before the reply neither replies nor closes the writer. */
  lemma QuietPhase(xs: seq<Event>)
    requires forall k :: 0 <= k < |xs| ==> IsUpstreamStep(xs[k]) || xs[k].HostsLookup? || xs[k].CacheGet? || xs[k].IPSetAdd?
    ensures CountWhere(xs, IsCloseWriter) == 0 && CountWhere(xs, IsWriteReply) == 0
  {
  }



  /** Only the dispatch phase contacts upstreams. */
  lemma OnlyDispatchContacts(s: Served, request: Msg)
    requires PhasesWellFormed(s) && s.respond == Respond(s.final, request)
    ensures Targets(Trace(s)) == Targets(s.dispatch)
  {
    FilterMapNone(Target, s.hosts);
    FilterMapNone(Target, s.lookup);
    FilterMapNone(Target, s.writeBack);
    FilterMapNone(Target, s.respond);
    FilterMapFive(Target, s.hosts, s.lookup, s.dispatch, s.writeBack, s.respond);
  }

  /** FilterMap over the five phases is the concatenation of its pieces. */
  lemma FilterMapFive<B>(f: Event -> Option<B>, a: seq<Event>, b: seq<Event>, c: seq<Event>, d: seq<Event>, e: seq<Event>)
    ensures FilterMap(f, a + (b + (c + (d + e)))) ==
      FilterMap(f, a) + (FilterMap(f, b) + (FilterMap(f, c) + (FilterMap(f, d) + FilterMap(f, e))))
  {
    FilterMapAppend(f, d, e);
    FilterMapAppend(f, c, d + e);
    FilterMapAppend(f, b, c + (d + e));
    FilterMapAppend(f, a, b + (c + (d + e)));
  }



  // ---------------------------------------------------------------------
  // ServeDNS
  // ---------------------------------------------------------------------

  /** The cache key of a request: its first question and its extra records. */
  function KeyOf(request: Msg): CacheKey
    requires |request.question| > 0
  {
    CacheKey(request.question[0], request.extra)
  }

  /** The route of a request's name. */
  function RouteOf(env: Env, request: Msg): Route
    requires WellFormed(env) && |request.question| > 0
  {
    GetGroupName(env.suffixTable, env.suffixOrder, env.classify, request.question[0].name)
  }

  /** The request got past the loop guard, the hosts sources and the cache,
      and its route names a configured group. */
  predicate ReachesDispatch(env: Env, request: Msg)
    requires WellFormed(env)
  {
    && |request.question| > 0
    && Count(request.question[0].name, LoopMarker) <= 1
    && Hosts(env, request.question[0]).HostsMiss?
    && env.cacheGet(KeyOf(request)).None?
    && RouteOf(env, request).group in env.groups
  }

  /** Where a request stands once dispatch is over, or how it ended before. */
  datatype Stage =
    | Early(served: Served)
    | Resolved(hosts: seq<Event>, lookup: seq<Event>, dispatch: seq<Event>, msg: Option<Msg>, group: HandlerGroup)

  /** ServeDNS up to and including dispatch. */
  function Resolve(env: Env, request: Msg): (st: Stage)
    requires WellFormed(env)
    ensures st.Resolved? <==> ReachesDispatch(env, request)
    ensures st.Resolved? ==>
      var g := env.groups[RouteOf(env, request).group];
      var d := Dispatch(env.io, request.question[0], request.extra, g.servers, g.dialer);
      && st.group == g
      && st.hosts == Hosts(env, request.question[0]).events
      && st.lookup == [CacheGet(KeyOf(request))]
      && st.dispatch == d.events && st.msg == d.msg
  {
    if |request.question| == 0 then Early(Served([], [], [], [], Respond(None, request), None, Crashed))
    else
      var q := request.question[0];
      if Count(q.name, LoopMarker) > 1 then Early(HaltedRun)
      else
        match Hosts(env, q)
        case HostsCrash(ev) => Early(Served(ev, [], [], [], Respond(None, request), None, Crashed))
        case HostsHit(ev, _, answer) => Early(Served(ev, [], [], [], Respond(answer, request), answer, Finished))
        case HostsMiss(ev) =>
          var key := KeyOf(request);
          match env.cacheGet(key)
          case Some(m) => Early(Served(ev, [CacheGet(key)], [], [], Respond(Some(m), request), Some(m), Finished))
          case None =>
            var route := RouteOf(env, request);
            if route.group !in env.groups then
              Early(Served(ev, [CacheGet(key)], [], [], Respond(None, request), None, Finished))
            else
              var g := env.groups[route.group];
              var d := Dispatch(env.io, q, request.extra, g.servers, g.dialer);
              Resolved(ev, [CacheGet(key)], d.events, d.msg, g)
  }

  /** The IPSet additions for the dispatched message, when the group has a
      set and there is a message to read answers from. */
  function WriteBack(env: Env, g: HandlerGroup, r: Option<Msg>): (adds: seq<Event>)
    ensures g.ipset.None? || r.None? ==> adds == []
    ensures g.ipset.Some? && r.Some? ==> AddedAddresses(adds) == FilterMap(AddressOf, r.value.answer)
    ensures forall k :: 0 <= k < |adds| ==>
      adds[k].IPSetAdd? && Some(adds[k].setName) == g.ipset && adds[k].ttl == g.ipsetTTL
  {
    if g.ipset.Some? && r.Some? then IPSetAdds(env.ipsetAdd, g.ipset.value, g.ipsetTTL, r.value.answer) else []
  }

  /** A request that cannot get past the handler's first lines: no question,
      or a nameless address query while hosts sources exist. */
  predicate Malformed(env: Env, request: Msg) {
    || |request.question| == 0
    || (IsAddressQuery(request.question[0]) && request.question[0].name == "" && |env.hostsReaders| > 0)
  }

  /** ServeDNS as ts-dns.go writes it: with an IPSet group and no message
      from any server, reading the answers of the nil message panics. */
  function ServeAsWritten(env: Env, request: Msg): (s: Served)
    requires WellFormed(env)
    ensures s.exit == Crashed <==>
      || Malformed(env, request)
      || (ReachesDispatch(env, request) && Resolve(env, request).group.ipset.Some? && Resolve(env, request).msg.None?)
    ensures s.exit == Halted <==> |request.question| > 0 && Count(request.question[0].name, LoopMarker) > 1
    // a crash leaves no message to reply with
    ensures s.exit == Crashed ==> s.final.None?
    // the deferred reply and close run on every exit but the halt, the panic included
    ensures s.exit != Halted ==> s.respond == Respond(s.final, request)
  {
    match Resolve(env, request)
    case Early(s) => s
    case Resolved(hosts, lookup, dispatch, r, g) =>
      if g.ipset.Some? && r.None? then Served(hosts, lookup, dispatch, [], Respond(None, request), None, Crashed)
      else Served(hosts, lookup, dispatch, WriteBack(env, g, r), Respond(r, request), r, Finished)
  }

  /** ServeDNS with the IPSet step guarded by a non-nil message. */
  function Serve(env: Env, request: Msg): (s: Served)
    requires WellFormed(env)
    // the loop guard halts the process before any other step, without the deferred close
    ensures s.exit == Halted <==> |request.question| > 0 && Count(request.question[0].name, LoopMarker) > 1
    ensures s.exit == Halted ==> s == HaltedRun
    // only a malformed request panics; then nothing is looked up or replied
    ensures s.exit == Crashed <==> Malformed(env, request)
    ensures s.exit == Crashed ==> s.final.None? && s.lookup == [] && s.dispatch == []
    // every other way out ends with the deferred reply of the final message
    ensures s.exit != Halted ==> s.respond == Respond(s.final, request)
  {
    match Resolve(env, request)
    case Early(s) => s
    case Resolved(hosts, lookup, dispatch, r, g) =>
      Served(hosts, lookup, dispatch, WriteBack(env, g, r), Respond(r, request), r, Finished)
  }

  // ---------------------------------------------------------------------
  // Properties of a whole request
  // ---------------------------------------------------------------------

  /** A name carrying the marker at two places halts the process before
      hosts, cache or dispatch; one carrying it at most once is served. */
  lemma LoopGuard(env: Env, request: Msg)
    requires WellFormed(env)
    requires |request.question| > 0
    ensures OccursTwice(request.question[0].name) <==> Serve(env, request) == HaltedRun
  {
    CountAtLeastTwo(request.question[0].name);
  }

  /** A request that reaches dispatch: the routed group's servers are tried
      in order, the last attempt's message is the reply, and the IPSet step
      sees that message. */
  lemma DispatchedRequest(env: Env, request: Msg)
    requires WellFormed(env)
    requires ReachesDispatch(env, request)
    ensures Serve(env, request).exit == Finished
    ensures Serve(env, request).hosts == Hosts(env, request.question[0]).events
    ensures Serve(env, request).lookup == [CacheGet(KeyOf(request))]
    ensures Serve(env, request).dispatch ==
      Dispatch(env.io, request.question[0], request.extra,
               env.groups[RouteOf(env, request).group].servers,
               env.groups[RouteOf(env, request).group].dialer).events
    ensures Serve(env, request).final ==
      Dispatch(env.io, request.question[0], request.extra,
               env.groups[RouteOf(env, request).group].servers,
               env.groups[RouteOf(env, request).group].dialer).msg
    ensures Serve(env, request).writeBack ==
      WriteBack(env, env.groups[RouteOf(env, request).group], Serve(env, request).final)
  {
  }

  /** A request that does not reach dispatch: nothing is dispatched and no
      address is added. */
  lemma UndispatchedRequest(env: Env, request: Msg)
    requires WellFormed(env)
    requires !ReachesDispatch(env, request)
    ensures Serve(env, request).dispatch == [] && Serve(env, request).writeBack == []
  {
  }

  /** Hosts sources are consulted for address queries only. */
  lemma HostsOnlyForAddressQueries(env: Env, request: Msg)
    requires WellFormed(env)
    requires |request.question| > 0 && !IsAddressQuery(request.question[0])
    ensures Serve(env, request).hosts == []
  {
  }

  /** A hosts record ends the request, whether or not it parses: its
      parsed form, or nothing, is the reply, and the cache is not read. */
  lemma HostsRecordEndsRequest(env: Env, request: Msg)
    requires WellFormed(env)
    requires |request.question| > 0 && Count(request.question[0].name, LoopMarker) <= 1
    requires Hosts(env, request.question[0]).HostsHit?
    ensures Serve(env, request).exit == Finished
    ensures Serve(env, request).lookup == [] && Serve(env, request).dispatch == []
    ensures Serve(env, request).final == Hosts(env, request.question[0]).answer
  {
  }

  /** A cache hit is the reply, and no upstream is asked. */
  lemma CacheHitIsTheReply(env: Env, request: Msg)
    requires WellFormed(env)
    requires |request.question| > 0 && Count(request.question[0].name, LoopMarker) <= 1
    requires Hosts(env, request.question[0]).HostsMiss? && env.cacheGet(KeyOf(request)).Some?
    ensures Serve(env, request).exit == Finished
    ensures Serve(env, request).lookup == [CacheGet(KeyOf(request))] && Serve(env, request).dispatch == []
    ensures Serve(env, request).final == env.cacheGet(KeyOf(request))
  {
  }

  /** A route to a group that is not configured gets no reply. */
  lemma UnknownGroupGetsNoReply(env: Env, request: Msg)
    requires WellFormed(env)
    requires |request.question| > 0 && Count(request.question[0].name, LoopMarker) <= 1
    requires Hosts(env, request.question[0]).HostsMiss? && env.cacheGet(KeyOf(request)).None?
    requires RouteOf(env, request).group !in env.groups
    ensures Serve(env, request).exit == Finished
    ensures Serve(env, request).dispatch == [] && Serve(env, request).final.None?
  {
  }

  /** Each phase of a served request holds only its own kind of step. */
  lemma RequestPhases(env: Env, request: Msg)
    requires WellFormed(env)
    requires Serve(env, request).exit != Halted
    ensures PhasesWellFormed(Serve(env, request))
  {
    var s := Serve(env, request);
    if |request.question| > 0 && IsAddressQuery(request.question[0]) {
      var h := LookupHosts(env.hostsReaders, env.newRR, request.question[0], 0);
      assert forall k :: 0 <= k < |h.events| ==> h.events[k].HostsLookup?;
    }
    if ReachesDispatch(env, request) {
      var g := env.groups[RouteOf(env, request).group];
      DispatchedRequest(env, request);
      DispatchIsUpstreamWork(env.io, request.question[0], request.extra, g.servers, g.dialer);
    } else {
      UndispatchedRequest(env, request);
    }
  }

  /** Every request that is not halted closes the writer exactly once, as
      its last step, and writes at most one reply: the final message. */
  lemma ClosedOnceAndLast(env: Env, request: Msg)
    requires WellFormed(env)
    requires Serve(env, request).exit != Halted
    ensures |Trace(Serve(env, request))| >= 1
    ensures Trace(Serve(env, request))[|Trace(Serve(env, request))| - 1] == CloseWriter
    ensures CountWhere(Trace(Serve(env, request)), IsCloseWriter) == 1
    ensures CountWhere(Trace(Serve(env, request)), IsWriteReply) ==
      (if Serve(env, request).final.Some? then 1 else 0)
  {
    RequestPhases(env, request);
    ReplyAtTheEnd(Serve(env, request), request);
  }

  /** Only dispatch contacts upstreams: a request answered from hosts or
      the cache, or one that crashed, contacted none; a dispatched one
      contacted a prefix of its group's servers, in order. */
  lemma UpstreamsOfRequest(env: Env, request: Msg)
    requires WellFormed(env)
    requires Serve(env, request).exit != Halted
    ensures !ReachesDispatch(env, request) ==> Targets(Trace(Serve(env, request))) == []
    ensures ReachesDispatch(env, request) ==>
      exists n :: 0 <= n <= |env.groups[RouteOf(env, request).group].servers|
        && Targets(Trace(Serve(env, request))) == env.groups[RouteOf(env, request).group].servers[..n]
  {
    var s := Serve(env, request);
    RequestPhases(env, request);
    OnlyDispatchContacts(s, request);
    if ReachesDispatch(env, request) {
      var g := env.groups[RouteOf(env, request).group];
      var d := Dispatch(env.io, request.question[0], request.extra, g.servers, g.dialer);
      DispatchedRequest(env, request);
      DispatchTargets(env.io, request.question[0], request.extra, g.servers, g.dialer);
      assert Targets(Trace(s)) == g.servers[..d.tried];
    } else {
      UndispatchedRequest(env, request);
    }
  }

  /** The environment after the cache has stored `m` under `key`. */
  function Remember(env: Env, key: CacheKey, m: Option<Msg>): (e: Env)
    ensures e.cacheGet(key) == m
    ensures forall k :: k != key ==> e.cacheGet(k) == env.cacheGet(k)
    ensures WellFormed(env) ==> WellFormed(e)
  {
    env.(cacheGet := k => if k == key then m else env.cacheGet(k))
  }

  /** The last cache write of a dispatched request stores its reply under
      its key; earlier ones store nil. */
  lemma DispatchedRequestCachesReply(env: Env, request: Msg)
    requires WellFormed(env)
    requires ReachesDispatch(env, request) && Serve(env, request).final.Some?
    ensures |CacheWrites(Serve(env, request).dispatch)| > 0
    ensures CacheWrites(Serve(env, request).dispatch)[|CacheWrites(Serve(env, request).dispatch)| - 1]
            == (KeyOf(request), Serve(env, request).final)
  {
    var g := env.groups[RouteOf(env, request).group];
    DispatchedRequest(env, request);
    DispatchCacheWrites(env.io, request.question[0], request.extra, g.servers, g.dialer);
  }

  /** The cache round trip: the same request served again from a cache that
      remembers the first one's reply gets that reply without contacting
      any upstream. */
  lemma CacheRoundTrip(env: Env, request: Msg)
    requires WellFormed(env)
    requires ReachesDispatch(env, request) && Serve(env, request).final.Some?
    ensures Serve(Remember(env, KeyOf(request), Serve(env, request).final), request).final ==
      Serve(env, request).final
    ensures Serve(Remember(env, KeyOf(request), Serve(env, request).final), request).dispatch == []
    ensures Targets(Trace(Serve(Remember(env, KeyOf(request), Serve(env, request).final), request))) == []
  {
    var s := Serve(env, request);
    var env2 := Remember(env, KeyOf(request), s.final);
    assert Hosts(env2, request.question[0]) == Hosts(env, request.question[0]);
    CacheHitIsTheReply(env2, request);
    UpstreamsOfRequest(env2, request);
  }

  /** The IPSet receives exactly the IPv4 addresses of the dispatched reply,
      in order, into the group's set with the group's TTL; nothing else
      adds to it. */
  lemma IPSetGetsAnswerAddresses(env: Env, request: Msg)
    requires WellFormed(env)
    requires ReachesDispatch(env, request)
    requires env.groups[RouteOf(env, request).group].ipset.Some? && Serve(env, request).final.Some?
    ensures AddedAddresses(Trace(Serve(env, request))) == FilterMap(AddressOf, Serve(env, request).final.value.answer)
    ensures forall k :: 0 <= k < |Serve(env, request).writeBack| ==>
      && Some(Serve(env, request).writeBack[k].setName) == env.groups[RouteOf(env, request).group].ipset
      && Serve(env, request).writeBack[k].ttl == env.groups[RouteOf(env, request).group].ipsetTTL
  {
    var s := Serve(env, request);
    DispatchedRequest(env, request);
    RequestPhases(env, request);
    AddedOnlyInWriteBack(s, request);
  }

  /** Only the write-back phase adds addresses. */
  lemma AddedOnlyInWriteBack(s: Served, request: Msg)
    requires PhasesWellFormed(s) && s.respond == Respond(s.final, request)
    ensures AddedAddresses(Trace(s)) == AddedAddresses(s.writeBack)
  {
    FilterMapNone(AddedAddress, s.hosts);
    FilterMapNone(AddedAddress, s.lookup);
    FilterMapNone(AddedAddress, s.dispatch);
    FilterMapNone(AddedAddress, s.respond);
    FilterMapFive(AddedAddress, s.hosts, s.lookup, s.dispatch, s.writeBack, s.respond);
  }

  // ---------------------------------------------------------------------
  // The nil answer at the IPSet step
  // ---------------------------------------------------------------------

  /** As written, a group with an IPSet whose servers all fail panics on the
      nil message and the client gets no reply; the guarded handler finishes
      normally, with no reply and no additions. */
  lemma NilAnswerPanicsAsWritten(env: Env, request: Msg)
    requires WellFormed(env)
    requires ReachesDispatch(env, request)
    requires env.groups[RouteOf(env, request).group].ipset.Some?
    requires Serve(env, request).final.None?
    ensures ServeAsWritten(env, request).exit == Crashed
    ensures Serve(env, request).exit == Finished && Serve(env, request).writeBack == []
  {
    DispatchedRequest(env, request);
  }

  /** Everywhere else the two agree. */
  lemma GuardChangesNothingElse(env: Env, request: Msg)
    requires WellFormed(env)
    requires ServeAsWritten(env, request).exit != Crashed || Malformed(env, request)
    ensures ServeAsWritten(env, request) == Serve(env, request)
  {
  }

  /** The guard changes how a request ends and nothing else: the handler as
      written leaves the same trace and the same final message. */
  lemma GuardChangesOnlyTheExit(env: Env, request: Msg)
    requires WellFormed(env)
    ensures ServeAsWritten(env, request) == Serve(env, request).(exit := ServeAsWritten(env, request).exit)
    ensures ServeAsWritten(env, request).exit == Halted <==> Serve(env, request).exit == Halted
  {
  }

  /** The handler as written also closes the writer exactly once, last, on
      every exit but the halt, the nil-answer panic included, and writes a
      reply iff there is a final message. */
  lemma AsWrittenClosedOnceAndLast(env: Env, request: Msg)
    requires WellFormed(env)
    requires ServeAsWritten(env, request).exit != Halted
    ensures |Trace(ServeAsWritten(env, request))| >= 1
    ensures Trace(ServeAsWritten(env, request))[|Trace(ServeAsWritten(env, request))| - 1] == CloseWriter
    ensures CountWhere(Trace(ServeAsWritten(env, request)), IsCloseWriter) == 1
    ensures CountWhere(Trace(ServeAsWritten(env, request)), IsWriteReply) ==
      (if ServeAsWritten(env, request).final.Some? then 1 else 0)
  {
    GuardChangesOnlyTheExit(env, request);
    ClosedOnceAndLast(env, request);
  }

  /** A concrete instance: a query routed to the clean group, whose one
      server times out and which has an IPSet. */
  lemma NilAnswerExample()
    ensures WellFormed(ExampleEnv())
    ensures ServeAsWritten(ExampleEnv(), ExampleRequest()).exit == Crashed
    ensures Serve(ExampleEnv(), ExampleRequest()).exit == Finished
  {
    var env := ExampleEnv();
    var request := ExampleRequest();
    assert Count(request.question[0].name, LoopMarker) == 0;
    assert RouteOf(env, request) == Route("clean", "default");
    NilAnswerPanicsAsWritten(env, request);
  }

  /** No hosts sources, an empty cache, no suffix rules, a classifier that
      knows nothing, and a clean group with one server and an IPSet. */
  function ExampleEnv(): (env: Env)
    ensures WellFormed(env) && "clean" in env.groups
  {
    var io := Io(
      (c, m, a) => Reply(None, Some(IoError("timeout"))),
      (d, n, a) => Err(IoError("unreachable")),
      (ch, m) => Some(IoError("unreachable")),
      ch => Reply(None, Some(IoError("unreachable"))),
      m => Err(IoError("unused")),
      (u, t, b) => Err(IoError("unused")),
      r => Err(IoError("unused")),
      b => Err(IoError("unused")));
    Env([], rec => None, key => None, map[], [], name => (false, false),
        map["clean" := HandlerGroup(["114.114.114.114:53"], None, Some("china"), 0)],
        io, (name, ip, ttl) => true)
  }

  /** An A query for "cn.". */
  function ExampleRequest(): (request: Msg)
    ensures |request.question| == 1 && IsAddressQuery(request.question[0])
  {
    QueryMsg("cn.", TypeA, [])
  }
}
