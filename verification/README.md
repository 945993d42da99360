# ts-dns core in Dafny

A model of the deterministic core of ts-dns, a DNS forwarding proxy that
routes each query to a group of upstream servers, and proofs about it.
The model covers three pieces:

- **Configuration** (`config.dfy`, module `Config`) models the part of
  `initConfig` that turns each group's `DNS`, `DoT` and `DoH` address lists
  into an ordered list of callers. It also covers the group's SOCKS5 dialer
  and IPSet settings, the cache parameters with their defaults and clamp,
  the default listen address, and the start-up check on the `clean` and
  `dirty` groups.
- **Transport callers** (`outbound.dfy`, module `Outbound`) model `call`
  and `DoHCaller.Call` from `outbound/caller.go`. They run over an I/O
  oracle, and a call yields the trace of the operations it performs
  (exchange, dial, write, read, close, POST, body read, body close) plus
  what it returns.
- **Routing and request handling** (`router.dfy` and `handler.dfy`,
  modules `Router` and `Handler`) model `getGroupName`, `queryDns` and
  `handler.ServeDNS`. One request runs through a fixed sequence of stages:
  1. loop guard;
  2. hosts sources;
  3. cache;
  4. route;
  5. ordered fallback dispatch, where every attempt writes the cache;
  6. IPSet write-back;
  7. deferred reply and close.

  A request yields its trace, split into these phases, and how it ended.
  It can finish normally, halt the process (`log.Fatalln`), or crash with
  a run-time panic. After a panic the deferred close still runs.

The other modules are supporting code:

- `Base` holds `Option`, `Result`, and filtering and counting over
  sequences.
- `Strs` holds the string operations the source takes from Go's
  `strings` package: prefix and suffix tests, `Split` and `Count`.
- `Dns` holds messages, events and the I/O oracle.

The environment enters as function-valued parameters:

- the network, TLS, HTTP and the wire codec;
- the hosts readers and `dns.NewRR`;
- the cache lookup;
- the suffix table and the gfwlist classifier;
- the configured groups;
- the IPSet.

The suffix table is a Go map, so its iteration order is an explicit
parameter. The model requires only that the order lists each of the
table's keys exactly once, and nothing else. When several suffixes match, the contracts promise only
*some* matching suffix, and `Router.AnyMatchingSuffixCanWin` shows that
every one of them can win.

`ts-dns.go` and `config.go` come from different revisions. The handler
reads each group as a list of server strings plus one dialer and calls
`queryDns`. `config.go` builds `Caller` lists instead. So the handler is
modelled over `Handler.HandlerGroup(servers, dialer, ipset, ipsetTTL)`,
and the callers are modelled on their own.

Behaviour of the code worth noting:

- Cache writes happen inside `queryDns`, once per attempt, and a nil
  result is written too.
- `log.Fatalln` in the loop guard exits without running deferred calls,
  so a halted request never closes its writer. Only the other exits close
  it.
- The hosts stage cuts the last character of the name, whatever that
  character is.
- `DoHCaller.Call` does not check for a nil request or an empty URL.
  Packing a nil request panics.
- An IPSet TTL that is zero or negative is stored as 0. No other default
  is applied.
- A route to a group that is not configured ends the request with no
  reply.

## Model

| member | source | states |
|---|---|---|
| Dns.QueryMsg | ts-dns.go:16-18 | The query carries exactly one class-IN question for the name and type, sets recursion desired, carries the request's extra records, and has no answers. |
| Dns.SetReply | ts-dns.go:69-71 | The stamped reply takes the request's id, opcode and first question, sets the response bit and a success rcode, and keeps the answer and extra records. It takes the request's rd and cd bits only when the opcode is QUERY; for any other opcode the message keeps its own. |
| Dns.SetReplyIdempotent | ts-dns.go:69-71 | Stamping a reply a second time for the same request changes nothing. |
| Outbound.ChannelFor | outbound/caller.go:42-47 | The raw proxied connection is used iff the client's transport is "tcp" or "udp"; any other transport wraps that connection in TLS with the client's TLS configuration. |
| Outbound.Call | outbound/caller.go:22-53 | A nil request, zero questions or an empty address returns an error before any I/O. Without a dialer: exactly one exchange, whose (msg, err) is returned unchanged. With a dialer: the first step is a "tcp" dial to the address. A failed dial returns its error and writes, reads and closes nothing. An opened connection is written over the right channel and closed exactly once, as the last step. A write error returns without a read. Otherwise the read's result is returned. Only a successful dial leads to a close. |
| Outbound.ProxiedTrace | outbound/caller.go:26-32 | A dial, then a write and perhaps a read, then one close: the trace contacts only the dialled upstream and closes exactly once. |
| Outbound.DoHCall | outbound/caller.go:97-124 | A nil request panics. A pack failure returns its error before any POST. A message is returned, and then with no error, iff pack, POST, body read and unpack all succeed, and that message is the unpacked body. The one POST goes to the configured URL with type application/dns-message and the packed bytes. The body is closed exactly once, last, iff the POST succeeded. |
| Outbound.NewTLSCaller | outbound/caller.go:83-90 | The result is a TLS caller with the given address and dialer, and a "tcp-tls" client that carries the server name and skip-verify flag. |
| Outbound.CallerCall | outbound/caller.go:60-124 | UDPCaller and TCPCaller run `call` with the shared "udp" or "tcp" client, and TLSCaller with its own client, each with the caller's address and dialer. DoHCaller posts to its URL. Only a DoH caller given a nil request panics. |
| Outbound.CallerNeverRetries | outbound/caller.go:55-124 | Any caller's Call contacts at most one upstream and closes at most one connection. |
| Outbound.PlainCallersNeverWrap | outbound/caller.go:43-47 | Every message a UDP or TCP caller writes goes over a plain channel, never TLS. |
| Outbound.TLSCallerWrapsWithItsServerName | outbound/caller.go:79-90 | Through a proxy, a caller built by NewTLSCaller writes over TLS on the dialled connection, with exactly the server name and skip flag it was built with. |
| Config.WithDefaultPort | config.go:117-119 | An address containing ':' is unchanged. Any other address gets ":" + port appended. The result always starts with the address and always contains ':'. |
| Config.DefaultPortIdempotent | config.go:117-119 | Adding the default port twice gives the same as adding it once. |
| Config.ParseDNSEntry | config.go:111-126 | An entry yields a caller iff it is neither empty nor a bare "/tcp". The caller is TCP iff the entry ends in "/tcp", with those 4 characters removed; otherwise it is UDP. The address gets ":53" when it has no port. The caller carries the group's dialer. |
| Config.DNSEntryRoundTrip | config.go:111-126 | Writing a parsed caller back as an entry and parsing that entry again gives the same caller. |
| Config.ParseDoTEntry | config.go:127-142 | A DoT caller needs exactly one '@' in the entry. It is a TLS caller with the group's dialer, an address that has a port, a non-empty server name and verification on. |
| Config.DoTEntryIff | config.go:127-142 | An entry yields a caller iff it is addr@serverName with both parts non-empty and no other '@'. The caller is then NewTLSCaller(addr with ":853" when it has no port, dialer, serverName, false). |
| Config.MatchesDoHIff | config.go:143-145 | The URL check holds iff the URL is "https://", then a non-empty middle with no newline, then "/dns-query". This is Go's reading of the pattern. |
| Config.ParseDoHEntry | config.go:143-148 | A DoH entry yields a caller iff it matches the pattern, and the caller keeps the URL unchanged. |
| Config.BuildCallers | config.go:110-149 | There are at most as many callers as entries. All plain-DNS callers come first, then DoT, then DoH. Every caller carries the group's dialer. |
| Config.BuildCallersAppendDNS | config.go:110-149 | The list is the DNS entries' callers in input order, then the DoT entries' callers, then the DoH entries' callers. Appending DNS entries appends their callers at the end of the DNS section. |
| Config.DialerFor | config.go:105-108 | A SOCKS5 dialer to the configured address exists iff the address is non-empty. |
| Config.BuildGroup | config.go:103-162 | The callers satisfy BuildCallers' ordering and length bounds and carry the group's dialer. The IPSet is set iff the name is non-empty. The TTL is copied only for a named set and only when positive; otherwise it is 0. |
| Config.WrapInt64 | config.go:170-173 | The result lies in int64 range and is congruent to the input modulo 2^64. In-range values are unchanged. |
| Config.DurationExact | config.go:170-173 | Seconds whose nanosecond count fits in int64 convert exactly. |
| Config.CacheParamsOf | config.go:165-177 | The defaults are 4096 entries, 60 s and 86400 s, and each non-zero setting overrides its default. The maximum TTL is raised to the minimum when below it, so max ≥ min always holds. |
| Config.CacheDefaults | config.go:165 | An all-zero cache table gives 4096 entries and TTLs from one minute to one day. |
| Config.CacheSettingsInRange | config.go:169-177 | Positive in-range TTL settings become exactly that many seconds of nanoseconds, with the maximum clamped up to the minimum. |
| Config.GroupHasCallersIff | config.go:110-149 | A group gets at least one caller iff one of its entries is usable: a DNS entry that is neither empty nor "/tcp", an addr@serverName DoT entry with both parts non-empty, or a DoH URL that matches the pattern. |
| Config.BuildGroups | config.go:103-163 | Every configured group name, and only those, gets a group, and each name maps to the group built from its own table. |
| Config.InitConfig | config.go:66-182 | A failing IPSet creation is fatal. Otherwise the configuration is accepted iff both "clean" and "dirty" exist and have at least one caller. An accepted configuration holds exactly the groups built from the file's tables and the defaulted, clamped cache parameters. Its listen address defaults to ":53", and its cache TTLs have min ≤ max. |
| Config.InitConfigAcceptsIff | config.go:153-182 | In terms of the file alone, the configuration is accepted iff every named IPSet can be created and both "clean" and "dirty" are present with at least one usable entry. |
| Router.FirstSuffix | ts-dns.go:48-52 | The suffix found is in the iteration order and ends the name. When none is found, no suffix in the order ends the name. |
| Router.ClassifierRoute | ts-dns.go:55-61 | matched+blocked gives ("dirty", "GFWList"). matched+unblocked gives ("clean", "GFWList"). unmatched gives ("clean", "default"). |
| Router.GetGroupName | ts-dns.go:46-62 | If some table suffix ends the name, the route is that suffix's group with reason "suffix " + suffix. Otherwise the classifier's verdict decides as in ClassifierRoute. |
| Router.SuffixMatchIgnoresClassifier | ts-dns.go:48-52 | When a suffix matches, the classifier is not consulted: any two classifiers give the same route. |
| Router.AnyMatchingSuffixCanWin | ts-dns.go:48-52 | Every matching suffix wins under some iteration order of the map: the one that visits that suffix first and every other key once after it. |
| Router.UnknownDomainIsClean | ts-dns.go:54-61 | A name that no suffix matches and that the classifier does not know routes to ("clean", "default"). |
| Handler.CountPositive | ts-dns.go:77 | strings.Count of the marker is at least 1 iff the marker occurs in the name. |
| Handler.CountAtLeastTwo | ts-dns.go:77-79 | strings.Count of the marker exceeds 1 iff the marker occurs at two distinct positions. |
| Handler.HostsAnswer | ts-dns.go:91-96 | A record that parses becomes a message whose only answer is the parsed record. A record that does not parse gives nil. |
| Handler.HostsRecord | ts-dns.go:85-89 | A reader's record for the name without its last character wins. The full name is asked only when that gives nothing. The result is empty iff both are empty. |
| Handler.LookupHosts | ts-dns.go:83-100 | The first reader with a non-empty record ends the loop with that record parsed, and every earlier reader had none. An empty name panics once a reader exists. A miss means no reader had a record. Lookups are made in non-decreasing reader order, starting with the first reader and the cut name, then the full name when the cut one gave nothing. |
| Handler.LookupHostsTrace | ts-dns.go:83-100 | The hosts trace is exactly the lookups of every reader asked, in reader order, up to the reader with a record or the end. Each reader asks with the cut name, then with the full name only when the cut one gave nothing. |
| Handler.Hosts | ts-dns.go:82-101 | Queries other than A and AAAA miss with no lookups. The stage panics iff an address query has an empty name and a hosts reader exists. A hit comes from an address query, and its trace and parsed answer are those of the reader loop. |
| Handler.QueryDns | ts-dns.go:14-44 | One attempt contacts exactly the given server, once. It writes its outcome, nil included, to the cache exactly once under (question, extra). An opened proxy connection is closed exactly once, as the last step, after the cache write. |
| Handler.Direct | ts-dns.go:39-43 | Without a proxy: one contact with the server, one cache write of the outcome, no connection to close. |
| Handler.Proxied | ts-dns.go:28-38 | Through a proxy: one contact with the server and one cache write of the outcome. A connection is closed exactly once, last, iff the dial succeeded. |
| Handler.QueryDnsPaths | ts-dns.go:14-44 | Without a dialer, the attempt is the library client's exchange of a recursive query for the question, and it returns that exchange's (msg, err). With one, the attempt starts with a "tcp" dial. A failed dial gives nil and the dial's error. Otherwise the message is the read's message if the write succeeded, and nil if it did not. |
| Handler.Dispatch | ts-dns.go:113-121 | Servers are tried in order, each at most once. Every attempt before the last gave nil. The result is the last attempt's message, even when that attempt also reported an error. A nil result means every server was tried. |
| Handler.DispatchTargets | ts-dns.go:113-121 | The upstreams contacted are exactly the first `tried` servers, in order. |
| Handler.DispatchIsUpstreamWork | ts-dns.go:113-121 | Dispatch performs only upstream steps: exchanges, dials, writes, reads, cache writes and connection closes. |
| Handler.DispatchCacheWrites | ts-dns.go:113-121 | Each attempt writes the cache once under the request's key: nil for every attempt but the last, then the last attempt's message. |
| Handler.FirstAnswerWins | ts-dns.go:118-120 | If servers 0..k-1 give nil and server k gives a message, then dispatch stops after k+1 attempts, contacts exactly servers[..k+1], and returns server k's message. |
| Handler.IPSetAdds | ts-dns.go:124-132 | One add per IPv4 answer, in answer order, with exactly those addresses. Every add goes to the group's set with the group's TTL. A failed add is recorded and does not stop the loop. |
| Handler.Respond | ts-dns.go:68-74 | A reply stamped by SetReply is written iff the final message is non-nil, and it comes first. The writer is closed exactly once, as the last step. |
| Handler.ReplyAtTheEnd | ts-dns.go:68-74 | No phase before the deferred part replies or closes. So the whole request closes the writer exactly once, last, and writes a reply iff the final message is non-nil. |
| Handler.Resolve | ts-dns.go:76-121 | A request reaches dispatch iff all of these hold: it has a question; the marker occurs at most once; hosts misses; the cache misses; and the routed group is configured. Dispatch then runs the routed group's servers and dialer. |
| Handler.WriteBack | ts-dns.go:123-133 | There are no adds without an IPSet or without a message. Otherwise the adds are exactly the message's IPv4 addresses, into the group's set with the group's TTL. |
| Handler.ServeAsWritten | ts-dns.go:66-135 | The handler as written crashes iff the request is malformed, or iff it reached dispatch with an IPSet group and got no message from any server. It halts iff the marker occurs more than once. A crash leaves no final message. On every exit but the halt, including the panics, the deferred reply of the final message and the close still run. |
| Handler.Serve | ts-dns.go:66-135 | The request halts iff the marker occurs more than once. A halted run has no steps and no close. Only a malformed request panics, and then nothing is looked up or replied. Every other exit ends with the deferred reply of the final message and a close. |
| Handler.LoopGuard | ts-dns.go:76-79 | A name holding the marker at two distinct positions halts before hosts, cache or dispatch, and only such a name does. |
| Handler.DispatchedRequest | ts-dns.go:109-134 | A dispatched request finishes. It asks hosts, reads the cache once, dispatches to the routed group, replies with dispatch's message, and hands that message to the IPSet step. |
| Handler.UndispatchedRequest | ts-dns.go:82-112 | A request that does not reach dispatch contacts no upstream and adds nothing to an IPSet. |
| Handler.HostsOnlyForAddressQueries | ts-dns.go:82 | Queries other than A and AAAA never consult the hosts sources. |
| Handler.HostsRecordEndsRequest | ts-dns.go:90-99 | A hosts record ends the request without a cache lookup or dispatch. The reply is the parsed record, or nothing when the record does not parse. |
| Handler.CacheHitIsTheReply | ts-dns.go:104-107 | A cache hit is the reply, and routing and dispatch are skipped. |
| Handler.UnknownGroupGetsNoReply | ts-dns.go:112 | A route to a group that is not configured ends the request normally, with no dispatch and no reply. |
| Handler.RequestPhases | ts-dns.go:66-135 | Every phase of a request that did not halt holds only its own kind of step. |
| Handler.ClosedOnceAndLast | ts-dns.go:67-74 | Every request that did not halt closes the writer exactly once, as its last step, and writes a reply iff its final message is non-nil. |
| Handler.UpstreamsOfRequest | ts-dns.go:112-121 | Only dispatch contacts upstreams. A request that was not dispatched contacted none. A dispatched one contacted a prefix of its group's servers, in order. |
| Handler.Remember | ts-dns.go:22-24 | After the cache stores m under a key, that key reads back m and every other key is unchanged. |
| Handler.DispatchedRequestCachesReply | ts-dns.go:22-24 | The last cache write of a dispatched request stores its reply under its (question, extra) key. |
| Handler.CacheRoundTrip | ts-dns.go:104-107 | Serving the same request again, from a cache that stored the first reply, gives that reply and contacts no upstream. |
| Handler.IPSetGetsAnswerAddresses | ts-dns.go:123-133 | Over the whole request, the addresses added are exactly the reply's IPv4 addresses in order, all into the group's set with the group's TTL. |
| Handler.NilAnswerPanicsAsWritten | ts-dns.go:123-124 | With an IPSet group and no message from any server, the handler as written crashes. The guarded one finishes with no additions. |
| Handler.GuardChangesNothingElse | ts-dns.go:123-124 | Apart from that crash, the handler as written and the guarded one produce identical runs. |
| Handler.GuardChangesOnlyTheExit | ts-dns.go:123-124 | The handler as written leaves the same trace and final message as the guarded one. Only how the request ends can differ, and it halts in exactly the same cases. |
| Handler.AsWrittenClosedOnceAndLast | ts-dns.go:67-74 | The handler as written also closes the writer exactly once, as its last step, on every exit but the halt, the nil-answer panic included. It writes a reply iff there is a final message. |
| Handler.NilAnswerExample | ts-dns.go:123-124 | A concrete environment and request exist in which the handler as written crashes while the guarded one finishes. |

## Left out

- Reading the TOML file, flags, `-v` and the version print, and the gfwlist, cnip and hosts files. These are file I/O and third-party parsing. `config.go`'s hosts text built from the `Hosts` map depends on map order and is left out too.
- The ABP rule matcher, the gfwlist classifier internals, `ipset.New` and the kernel set, and the cache's storage, eviction and TTL enforcement. Each is an oracle: `classify`, `ipsetAdd`, `cacheGet`, and the `ipsetNew` outcome in `Config.InitConfig`. Cache writes appear as `CacheSet` events.
- DNS wire packing and unpacking, `dns.NewRR`, TLS handshakes, the HTTP client and `proxy.SOCKS5`. These are oracle functions that may fail. The random message id of a fresh query is not modelled; it is 0.
- The process-wide `httpClient.Transport` assignment when a DoH caller has a dialer (outbound/caller.go:103-105). The assignment is never undone: once a DoH caller with a dialer has called, every later DoH call in the process, from any DoH caller, goes through that dialer, including callers whose own dialer is nil. The POST event does not record the transport, so this carry-over is not represented; the DoH dialer is kept in the caller but unused. Concurrent calls also race on the field.
- Concurrency between requests, `main`, `ListenAndServe`, and all logging, including the log lines of errors the handler ignores.
- `resp.RemoteAddr()` in the log prefix is not modelled. It only feeds the log.
- The oracles are deterministic: the same arguments always give the same outcome. Neither `config.go` nor the handler removes duplicate servers, so a group that lists a server twice queries it twice. With the message id fixed at 0, the model gives both attempts the same outcome: it cannot represent a timeout followed by a success on the repeated server.
- Of the DNS header, only the id, response bit, opcode, rd and cd bits and rcode are modelled; the other flags and the authority section are not. Messages are built with opcode QUERY, and `dns.Msg.SetReply` is modelled as the library documents it: the opcode is copied, and rd and cd are copied only for QUERY.
- A dial that returns both a connection and an error is not modelled. The dialer either gives a connection or an error.
- Router.GetGroupName: when several suffixes match, the contract names some matching suffix rather than a particular one, because Go's map iteration order is unspecified. The order is a parameter, and Router.AnyMatchingSuffixCanWin shows every match can win.

## Findings

| source | as written | input that shows it | evidently intended | confidence | as-written member | corrected member |
|---|---|---|---|---|---|---|
| ts-dns.go:123-124 | After dispatch, when the group has an IPSet, the handler reads `r.Answer` even when every server returned nil. | The environment of `Handler.NilAnswerExample`: an A query for "cn." routed to "clean", whose one server times out and which has IPSet "china". The handler dereferences a nil message and panics, and the client gets no reply. | Skip the IPSet step when no message arrived, and finish with no reply and no additions. | not executed | Handler.ServeAsWritten, Handler.NilAnswerPanicsAsWritten | Handler.Serve |
