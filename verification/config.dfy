/** The deterministic part of `initConfig` in config.go: turning each
    group's DNS / DoT / DoH address lists into an ordered list of callers,
    the IPSet settings, the cache parameters with their defaults and clamp,
    the listen-address default, and the final clean/dirty check. Reading the
    TOML file, the gfwlist, cnip and hosts files, and building the rule
    matchers are not part of this model. */
module Config {
  import opened Base
  import opened Strs
  import opened Dns
  import opened Outbound

  const DefaultListen := ":53"
  const DNSPort := "53"
  const DoTPort := "853"
  const TcpSuffix := "/tcp"
  const DoHPrefix := "https://"
  const DoHSuffix := "/dns-query"

  // ---------------------------------------------------------------------
  // Upstream addresses
  // ---------------------------------------------------------------------

  /** An address without a port (no ':') gets ":" + `port` appended. */
  function WithDefaultPort(addr: string, port: string): (r: string)
    ensures HasPrefix(r, addr) && ':' in r
    ensures ':' in addr ==> r == addr
    ensures ':' !in addr ==> r == addr + ":" + port
  {
    if ':' in addr then addr else addr + ":" + port
  }

  /** Adding the default port twice is the same as adding it once. */
  lemma DefaultPortIdempotent(addr: string, port: string)
    ensures WithDefaultPort(WithDefaultPort(addr, port), port) == WithDefaultPort(addr, port)
  {
  }

  /** One entry of a group's `DNS` list: `host[:port]` for UDP, the same with
      a `/tcp` suffix for TCP. An entry that is empty once the suffix is
      removed yields no caller. */
  function ParseDNSEntry(entry: string, dialer: Option<Dialer>): (r: Option<Caller>)
    ensures r.Some? <==> entry != "" && entry != TcpSuffix
    ensures r.Some? ==> (r.value.UDPCaller? || r.value.TCPCaller?) && r.value.dialer == dialer
    ensures r.Some? ==> (r.value.TCPCaller? <==> HasSuffix(entry, TcpSuffix))
    ensures r.Some? && r.value.TCPCaller? ==>
      r.value.address == WithDefaultPort(entry[..|entry| - |TcpSuffix|], DNSPort)
    ensures r.Some? && r.value.UDPCaller? ==> r.value.address == WithDefaultPort(entry, DNSPort)
  {
    var useTcp := HasSuffix(entry, TcpSuffix);
    var addr := if useTcp then entry[..|entry| - |TcpSuffix|] else entry;
    if addr == "" then None
    else
      var full := WithDefaultPort(addr, DNSPort);
      Some(if useTcp then TCPCaller(full, dialer) else UDPCaller(full, dialer))
  }

  /** The `DNS` list entry that describes a UDP or TCP caller. */
  function DNSEntryOf(c: Caller): string
    requires c.UDPCaller? || c.TCPCaller?
  {
    if c.TCPCaller? then c.address + TcpSuffix else c.address
  }

  /** Parsing is stable: the entry written back from a parsed caller parses
      to the same caller. */
  lemma DNSEntryRoundTrip(entry: string, dialer: Option<Dialer>)
    requires ParseDNSEntry(entry, dialer).Some?
    ensures ParseDNSEntry(DNSEntryOf(ParseDNSEntry(entry, dialer).value), dialer)
         == ParseDNSEntry(entry, dialer)
  {
    var c := ParseDNSEntry(entry, dialer).value;
    var e := DNSEntryOf(c);
    if c.TCPCaller? {
      assert e[..|e| - |TcpSuffix|] == c.address;
      assert HasSuffix(e, TcpSuffix);
    } else {
      assert !HasSuffix(e, TcpSuffix) by {
        if ':' !in entry {
          assert e[|e| - 1] == '3';
        }
      }
    }
  }

  /** One entry of a group's `DoT` list: `host[:port]@serverName`. */
  function ParseDoTEntry(entry: string, dialer: Option<Dialer>): (r: Option<Caller>)
    ensures r.Some? ==> CountChar(entry, '@') == 1
    ensures r.Some? ==>
      && r.value.TLSCaller? && r.value.dialer == dialer && ':' in r.value.address
      && r.value.client.tls.Some? && r.value.client.tls.value.serverName != ""
      && !r.value.client.tls.value.skipVerify
  {
    var parts := Split(entry, '@');
    SplitLength(entry, '@');
    if |parts| != 2 then None
    else
      var addr, serverName := parts[0], parts[1];
      if addr == "" then None
      else
        var full := WithDefaultPort(addr, DoTPort);
        if serverName == "" then None
        else Some(NewTLSCaller(full, dialer, serverName, false))
  }

  /** `entry` is `addr@serverName` with both parts non-empty and no other `@`. */
  predicate IsDoTForm(entry: string, addr: string, serverName: string) {
    && addr != "" && serverName != ""
    && '@' !in addr && '@' !in serverName
    && entry == addr + "@" + serverName
  }

  /** A DoT entry yields a caller exactly when it has the `addr@serverName`
      form, and the caller is the TLS caller for those two parts with
      certificate verification on. */
  lemma DoTEntryIff(entry: string, dialer: Option<Dialer>)
    ensures ParseDoTEntry(entry, dialer).Some? <==> exists a, sn :: IsDoTForm(entry, a, sn)
    ensures forall a, sn :: IsDoTForm(entry, a, sn) ==>
      ParseDoTEntry(entry, dialer) == Some(NewTLSCaller(WithDefaultPort(a, DoTPort), dialer, sn, false))
  {
    forall a, sn | IsDoTForm(entry, a, sn)
      ensures ParseDoTEntry(entry, dialer) == Some(NewTLSCaller(WithDefaultPort(a, DoTPort), dialer, sn, false))
    {
      SplitPair(a, sn, '@');
    }
    if ParseDoTEntry(entry, dialer).Some? {
      var parts := Split(entry, '@');
      SplitLength(entry, '@');
      SplitJoin(entry, '@');
      assert Join(parts, '@') == parts[0] + "@" + Join(parts[1..], '@');
      assert IsDoTForm(entry, parts[0], parts[1]);
    }
  }

  /** The pattern `^https://.+/dns-query$` as Go's regexp reads it: `.` is
      any character but a newline and `$` is the end of the text. */
  predicate MatchesDoH(url: string) {
    && |url| >= |DoHPrefix| + 1 + |DoHSuffix|
    && HasPrefix(url, DoHPrefix)
    && HasSuffix(url, DoHSuffix)
    && '\n' !in url
  }

  /** `url` is the prefix, a non-empty newline-free middle, and the suffix. */
  predicate IsDoHForm(url: string, middle: string) {
    |middle| >= 1 && '\n' !in middle && url == DoHPrefix + middle + DoHSuffix
  }

  /** The check agrees with the pattern's own reading: some non-empty
      newline-free middle sits between `https://` and `/dns-query`. */
  lemma MatchesDoHIff(url: string)
    ensures MatchesDoH(url) <==> exists m :: IsDoHForm(url, m)
  {
    if MatchesDoH(url) {
      var m := url[|DoHPrefix|..|url| - |DoHSuffix|];
      assert url == url[..|DoHPrefix|] + m + url[|url| - |DoHSuffix|..];
      assert '\n' !in m by {
        forall i | 0 <= i < |m| ensures m[i] != '\n' {
          assert m[i] == url[|DoHPrefix| + i];
        }
      }
      assert IsDoHForm(url, m);
    }
    if exists m :: IsDoHForm(url, m) {
      var m :| IsDoHForm(url, m);
      assert url[..|DoHPrefix|] == DoHPrefix;
      assert url[|url| - |DoHSuffix|..] == DoHSuffix;
      assert '\n' !in url by {
        forall i | 0 <= i < |url| ensures url[i] != '\n' {
          if i < |DoHPrefix| {
            assert url[i] == DoHPrefix[i];
          } else if i < |DoHPrefix| + |m| {
            assert url[i] == m[i - |DoHPrefix|];
          } else {
            assert url[i] == DoHSuffix[i - |DoHPrefix| - |m|];
          }
        }
      }
    }
  }

  /** One entry of a group's `DoH` list: kept unchanged as the URL iff it
      matches the pattern. */
  function ParseDoHEntry(entry: string, dialer: Option<Dialer>): (r: Option<Caller>)
    ensures r.Some? <==> MatchesDoH(entry)
    ensures r.Some? ==> r.value == DoHCaller(entry, dialer)
  {
    if MatchesDoH(entry) then Some(DoHCaller(entry, dialer)) else None
  }

  function DNSParser(dialer: Option<Dialer>): string -> Option<Caller> {
    e => ParseDNSEntry(e, dialer)
  }

  function DoTParser(dialer: Option<Dialer>): string -> Option<Caller> {
    e => ParseDoTEntry(e, dialer)
  }

  function DoHParser(dialer: Option<Dialer>): string -> Option<Caller> {
    e => ParseDoHEntry(e, dialer)
  }

  /** Position of a caller kind in a group's list: plain DNS first, then
      DoT, then DoH. */
  function Rank(c: Caller): nat {
    match c
    case UDPCaller(_, _) => 0
    case TCPCaller(_, _) => 0
    case TLSCaller(_, _, _) => 1
    case DoHCaller(_, _) => 2
  }

  predicate RankSorted(cs: seq<Caller>) {
    forall i, j :: 0 <= i < j < |cs| ==> Rank(cs[i]) <= Rank(cs[j])
  }

  /** Every caller a parser produces has the given rank and dialer. */
  lemma ParsedKind(f: string -> Option<Caller>, xs: seq<string>, rank: nat, dialer: Option<Dialer>)
    requires forall x :: f(x).Some? ==> Rank(f(x).value) == rank && f(x).value.dialer == dialer
    ensures forall c :: c in FilterMap(f, xs) ==> Rank(c) == rank && c.dialer == dialer
  {
    forall c | c in FilterMap(f, xs) ensures Rank(c) == rank && c.dialer == dialer {
      FilterMapMembership(f, xs, c);
    }
  }

  /** The callers of one group, in the order the source appends them: all
      DNS entries in input order, then all DoT entries, then all DoH entries. */
  function BuildCallers(dns: seq<string>, dot: seq<string>, doh: seq<string>, dialer: Option<Dialer>): (cs: seq<Caller>)
    ensures |cs| <= |dns| + |dot| + |doh|
    ensures RankSorted(cs)
    ensures forall i :: 0 <= i < |cs| ==> cs[i].dialer == dialer
  {
    var a := FilterMap(DNSParser(dialer), dns);
    var b := FilterMap(DoTParser(dialer), dot);
    var c := FilterMap(DoHParser(dialer), doh);
    ParsedKind(DNSParser(dialer), dns, 0, dialer);
    ParsedKind(DoTParser(dialer), dot, 1, dialer);
    ParsedKind(DoHParser(dialer), doh, 2, dialer);
    var cs := a + b + c;
    assert forall i :: 0 <= i < |cs| ==>
      (i < |a| ==> cs[i] in a) && (|a| <= i < |a| + |b| ==> cs[i] in b) && (|a| + |b| <= i ==> cs[i] in c);
    cs
  }

  /** The callers are the DNS section, then the DoT section, then the DoH
      section; appending entries to the DNS list appends their callers at the
      end of the DNS section and leaves the rest in place. */
  lemma BuildCallersAppendDNS(dns: seq<string>, more: seq<string>, dot: seq<string>, doh: seq<string>, dialer: Option<Dialer>)
    ensures BuildCallers(dns + more, dot, doh, dialer)
         == FilterMap(DNSParser(dialer), dns) + FilterMap(DNSParser(dialer), more)
            + FilterMap(DoTParser(dialer), dot) + FilterMap(DoHParser(dialer), doh)
  {
    FilterMapAppend(DNSParser(dialer), dns, more);
  }

  // ---------------------------------------------------------------------
  // Groups
  // ---------------------------------------------------------------------

  /** One `[groups.<name>]` table. */
  datatype GroupSpec = GroupSpec(
    socks5: string,
    ipsetName: string,
    ipsetTTL: int,
    dns: seq<string>,
    dot: seq<string>,
    doh: seq<string>,
    rules: seq<string>)

  /** A configured group. `rules` is handed to the rule matcher, which is not
      part of this model; an IPSet TTL of 0 means the set's default. */
  datatype Group = Group(callers: seq<Caller>, rules: seq<string>, ipset: Option<string>, ipsetTTL: int)

  /** A SOCKS5 dialer when a proxy address is configured. */
  function DialerFor(socks5: string): (d: Option<Dialer>)
    ensures d.Some? <==> socks5 != ""
    ensures d.Some? ==> d.value.address == socks5
  {
    if socks5 != "" then Some(Socks5(socks5)) else None
  }

  function BuildGroup(spec: GroupSpec): (g: Group)
    ensures |g.callers| <= |spec.dns| + |spec.dot| + |spec.doh|
    ensures RankSorted(g.callers)
    ensures forall i :: 0 <= i < |g.callers| ==> g.callers[i].dialer == DialerFor(spec.socks5)
    ensures g.ipset.Some? <==> spec.ipsetName != ""
    ensures g.ipset.Some? ==> g.ipset.value == spec.ipsetName
    // the TTL is copied only for a named set and only when positive
    ensures g.ipsetTTL == (if spec.ipsetName != "" && spec.ipsetTTL > 0 then spec.ipsetTTL else 0)
    ensures g.ipsetTTL >= 0
  {
    var callers := BuildCallers(spec.dns, spec.dot, spec.doh, DialerFor(spec.socks5));
    if spec.ipsetName == "" then Group(callers, spec.rules, None, 0)
    else Group(callers, spec.rules, Some(spec.ipsetName), if spec.ipsetTTL > 0 then spec.ipsetTTL else 0)
  }

  /** `entry` is a DoT entry that yields a caller. */
  ghost predicate IsDoTEntry(entry: string) {
    exists a, sn :: IsDoTForm(entry, a, sn)
  }

  /** Some entry of the group is usable: a DNS entry that is neither empty
      nor a bare `/tcp`, an `addr@serverName` DoT entry, or a matching DoH URL. */
  ghost predicate HasUsableEntry(spec: GroupSpec) {
    || (exists i :: 0 <= i < |spec.dns| && spec.dns[i] != "" && spec.dns[i] != TcpSuffix)
    || (exists i :: 0 <= i < |spec.dot| && IsDoTEntry(spec.dot[i]))
    || (exists i :: 0 <= i < |spec.doh| && MatchesDoH(spec.doh[i]))
  }

  /** A group gets a caller exactly when one of its entries is usable. */
  lemma GroupHasCallersIff(spec: GroupSpec)
    ensures |BuildGroup(spec).callers| > 0 <==> HasUsableEntry(spec)
  {
    if |BuildGroup(spec).callers| > 0 {
      CallerNeedsUsableEntry(spec);
    }
    if HasUsableEntry(spec) {
      UsableEntryGivesCaller(spec);
    }
  }

  lemma CallerNeedsUsableEntry(spec: GroupSpec)
    requires |BuildGroup(spec).callers| > 0
    ensures HasUsableEntry(spec)
  {
    var d := DialerFor(spec.socks5);
    var a := FilterMap(DNSParser(d), spec.dns);
    var b := FilterMap(DoTParser(d), spec.dot);
    var c := FilterMap(DoHParser(d), spec.doh);
    assert BuildGroup(spec).callers == a + b + c;
    if |a| > 0 {
      FilterMapMembership(DNSParser(d), spec.dns, a[0]);
      var i :| 0 <= i < |spec.dns| && DNSParser(d)(spec.dns[i]) == Some(a[0]);
      assert spec.dns[i] != "" && spec.dns[i] != TcpSuffix;
    } else if |b| > 0 {
      FilterMapMembership(DoTParser(d), spec.dot, b[0]);
      var i :| 0 <= i < |spec.dot| && DoTParser(d)(spec.dot[i]) == Some(b[0]);
      DoTEntryIff(spec.dot[i], d);
      assert IsDoTEntry(spec.dot[i]);
    } else {
      FilterMapMembership(DoHParser(d), spec.doh, c[0]);
      var i :| 0 <= i < |spec.doh| && DoHParser(d)(spec.doh[i]) == Some(c[0]);
      assert MatchesDoH(spec.doh[i]);
    }
  }

  lemma UsableEntryGivesCaller(spec: GroupSpec)
    requires HasUsableEntry(spec)
    ensures |BuildGroup(spec).callers| > 0
  {
    var d := DialerFor(spec.socks5);
    var a := FilterMap(DNSParser(d), spec.dns);
    var b := FilterMap(DoTParser(d), spec.dot);
    var c := FilterMap(DoHParser(d), spec.doh);
    assert BuildGroup(spec).callers == a + b + c;
    if exists i :: 0 <= i < |spec.dns| && spec.dns[i] != "" && spec.dns[i] != TcpSuffix {
      var i :| 0 <= i < |spec.dns| && spec.dns[i] != "" && spec.dns[i] != TcpSuffix;
      UsableDNSEntry(spec.dns, d, i);
    } else if exists i :: 0 <= i < |spec.dot| && IsDoTEntry(spec.dot[i]) {
      var i :| 0 <= i < |spec.dot| && IsDoTEntry(spec.dot[i]);
      UsableDoTEntry(spec.dot, d, i);
    } else {
      var i :| 0 <= i < |spec.doh| && MatchesDoH(spec.doh[i]);
      UsableDoHEntry(spec.doh, d, i);
    }
  }

  lemma UsableDNSEntry(entries: seq<string>, d: Option<Dialer>, i: nat)
    requires i < |entries| && entries[i] != "" && entries[i] != TcpSuffix
    ensures |FilterMap(DNSParser(d), entries)| > 0
  {
    FilterMapMembership(DNSParser(d), entries, ParseDNSEntry(entries[i], d).value);
  }

  lemma UsableDoTEntry(entries: seq<string>, d: Option<Dialer>, i: nat)
    requires i < |entries| && IsDoTEntry(entries[i])
    ensures |FilterMap(DoTParser(d), entries)| > 0
  {
    DoTEntryIff(entries[i], d);
    FilterMapMembership(DoTParser(d), entries, ParseDoTEntry(entries[i], d).value);
  }

  lemma UsableDoHEntry(entries: seq<string>, d: Option<Dialer>, i: nat)
    requires i < |entries| && MatchesDoH(entries[i])
    ensures |FilterMap(DoHParser(d), entries)| > 0
  {
    FilterMapMembership(DoHParser(d), entries, ParseDoHEntry(entries[i], d).value);
  }

  // ---------------------------------------------------------------------
  // Cache parameters
  // ---------------------------------------------------------------------

  /** Nanoseconds in a second: time.Duration counts nanoseconds in an int64. */
  const Second: int := 1_000_000_000
  const Minute: int := 60 * Second
  const Day: int := 24 * 60 * Minute
  const DefaultCacheSize: int := 4096
  const TwoTo63: int := 0x8000_0000_0000_0000
  const TwoTo64: int := 0x1_0000_0000_0000_0000

  /** Two's-complement wrap-around of Go's int64 arithmetic. */
  function WrapInt64(x: int): (r: int)
    ensures -TwoTo63 <= r < TwoTo63
    ensures (r - x) % TwoTo64 == 0
    ensures -TwoTo63 <= x < TwoTo63 ==> r == x
  {
    (x + TwoTo63) % TwoTo64 - TwoTo63
  }

  /** `time.Second * time.Duration(seconds)`, wrapping like int64. */
  function Duration(seconds: int): int {
    WrapInt64(Second * seconds)
  }

  /** Seconds small enough that the conversion to nanoseconds does not wrap. */
  lemma DurationExact(seconds: int)
    requires -9_223_372_036 <= seconds <= 9_223_372_036
    ensures Duration(seconds) == seconds * Second
  {
  }

  /** The `[cache]` table, in the file's units (seconds). */
  datatype CacheSpec = CacheSpec(size: int, minTTL: int, maxTTL: int)

  /** What the cache is built with: size in entries, TTL bounds as Durations. */
  datatype CacheParams = CacheParams(size: int, minTTL: int, maxTTL: int)

  /** Each non-zero setting overrides its default (4096 entries, 60 s,
      86400 s); then the maximum is raised to the minimum if below it. */
  function CacheParamsOf(spec: CacheSpec): (p: CacheParams)
    ensures p.minTTL <= p.maxTTL
    ensures p.size == (if spec.size != 0 then spec.size else DefaultCacheSize)
    ensures p.minTTL == (if spec.minTTL != 0 then Duration(spec.minTTL) else Minute)
    ensures var configured := if spec.maxTTL != 0 then Duration(spec.maxTTL) else Day;
      p.maxTTL == (if configured < p.minTTL then p.minTTL else configured)
  {
    var size := if spec.size != 0 then spec.size else DefaultCacheSize;
    var minTTL := if spec.minTTL != 0 then Duration(spec.minTTL) else Minute;
    var maxTTL := if spec.maxTTL != 0 then Duration(spec.maxTTL) else Day;
    CacheParams(size, minTTL, if maxTTL < minTTL then minTTL else maxTTL)
  }

  /** With everything left at zero the cache gets 4096 entries and TTLs
      between one minute and one day. */
  lemma CacheDefaults()
    ensures CacheParamsOf(CacheSpec(0, 0, 0)) == CacheParams(4096, 60 * Second, 86400 * Second)
  {
  }

  /** Settings in a sane range are taken as given, converted to nanoseconds,
      and the clamp only ever raises the maximum to the minimum. */
  lemma CacheSettingsInRange(spec: CacheSpec)
    requires 0 < spec.minTTL <= 9_223_372_036 && 0 < spec.maxTTL <= 9_223_372_036
    ensures CacheParamsOf(spec).minTTL == spec.minTTL * Second
    ensures CacheParamsOf(spec).maxTTL
         == (if spec.maxTTL < spec.minTTL then spec.minTTL else spec.maxTTL) * Second
  {
    DurationExact(spec.minTTL);
    DurationExact(spec.maxTTL);
  }

  // ---------------------------------------------------------------------
  // The whole configuration
  // ---------------------------------------------------------------------

  /** The parts of the TOML file this model reads. */
  datatype TomlConfig = TomlConfig(listen: string, cache: CacheSpec, groups: map<string, GroupSpec>)

  datatype Config = Config(listen: string, groups: map<string, Group>, cache: CacheParams)

  /** The two fatal exits of configuration loading modelled here. */
  datatype ConfigError = IPSetCreateFailed | CleanDirtyEmpty

  /** Group `name` exists and has at least one caller. */
  predicate HasCallers(groups: map<string, Group>, name: string) {
    name in groups && |groups[name].callers| > 0
  }

  /** Some group names an IPSet whose creation fails. */
  predicate SomeIPSetFails(specs: map<string, GroupSpec>, ipsetNew: string -> bool) {
    exists n :: n in specs && specs[n].ipsetName != "" && !ipsetNew(specs[n].ipsetName)
  }

  function BuildGroups(specs: map<string, GroupSpec>): (gs: map<string, Group>)
    ensures gs.Keys == specs.Keys
    ensures forall n :: n in specs ==> gs[n] == BuildGroup(specs[n])
  {
    map n | n in specs :: BuildGroup(specs[n])
  }

  /** initConfig after the file is read. `ipsetNew` says whether creating a
      named IPSet succeeds. */
  function InitConfig(t: TomlConfig, ipsetNew: string -> bool): (r: Result<Config, ConfigError>)
    ensures r == Err(IPSetCreateFailed) <==> SomeIPSetFails(t.groups, ipsetNew)
    ensures r.Ok? <==>
      && !SomeIPSetFails(t.groups, ipsetNew)
      && HasCallers(BuildGroups(t.groups), "clean")
      && HasCallers(BuildGroups(t.groups), "dirty")
    ensures r.Ok? ==> HasCallers(r.value.groups, "clean") && HasCallers(r.value.groups, "dirty")
    ensures r.Ok? ==> r.value.groups.Keys == t.groups.Keys
    // the accepted configuration holds exactly the groups and cache settings built from the file
    ensures r.Ok? ==> r.value.groups == BuildGroups(t.groups) && r.value.cache == CacheParamsOf(t.cache)
    ensures r.Ok? ==> r.value.listen == (if t.listen == "" then DefaultListen else t.listen)
    ensures r.Ok? ==> r.value.cache.minTTL <= r.value.cache.maxTTL
  {
    var listen := if t.listen == "" then DefaultListen else t.listen;
    if SomeIPSetFails(t.groups, ipsetNew) then Err(IPSetCreateFailed)
    else
      var groups := BuildGroups(t.groups);
      var cache := CacheParamsOf(t.cache);
      if !HasCallers(groups, "clean") || !HasCallers(groups, "dirty") then Err(CleanDirtyEmpty)
      else Ok(Config(listen, groups, cache))
  }

  /** The start-up check in terms of the file: the configuration is accepted
      exactly when every named IPSet can be created and both the "clean" and
      the "dirty" group exist with a usable entry. */
  lemma InitConfigAcceptsIff(t: TomlConfig, ipsetNew: string -> bool)
    ensures InitConfig(t, ipsetNew).Ok? <==>
      && !SomeIPSetFails(t.groups, ipsetNew)
      && "clean" in t.groups && HasUsableEntry(t.groups["clean"])
      && "dirty" in t.groups && HasUsableEntry(t.groups["dirty"])
  {
    if "clean" in t.groups {
      GroupHasCallersIff(t.groups["clean"]);
    }
    if "dirty" in t.groups {
      GroupHasCallersIff(t.groups["dirty"]);
    }
  }
}
