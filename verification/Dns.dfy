/** Configured DNS servers and the guard for one of them. */
module Dns {
  import opened Prelude
  import opened Sorting
  import opened Native
  import opened Scopes

  datatype Ip = V4(bits: nat) | V6(bits: nat)

  predicate Is4In6(ip: Ip) { ip.V6? && ip.bits / 0x1_0000_0000 == 0xffff }

  predicate Unspecified(ip: Ip) { ip.bits == 0 }

  predicate Multicast(ip: Ip) {
    if ip.V4? then ip.bits / 0x1000_0000 == 0xe
    else ip.bits / 0x1_0000_0000_0000_0000_0000_0000_0000_00 == 0xff
  }

  /** Shorter addresses first, then by value. */
  predicate IpLeq(a: Ip, b: Ip) { if a.V4? == b.V4? then a.bits <= b.bits else a.V4? }

  lemma {:induction false} IpOrder()
    ensures TotalOrder(IpLeq)
  {
  }

  /** The address library: reading inverts writing. */
  datatype Library = Library(parse: string -> Option<Ip>, show: Ip -> string)

  ghost predicate Faithful(lib: Library) {
    forall ip: Ip :: lib.parse(lib.show(ip)) == Some(ip)
  }

  // ---- what the lines mean ----

  predicate DnsLine(c: Command) { c.parent == -1 && c.parsed.kind.DnsServers? }

  datatype Server = Server(ip: Ip, dynamic: bool)

  /** A single host's address: in IPv4 neither zero nor from 224.0.0.0 through
      239.255.255.255, in IPv6 neither zero nor below ff00::/8 or ::ffff:0:0/96. */
  predicate HostAddress(ip: Ip) {
    match ip
    case V4(n) => 0 < n && !(0xe000_0000 <= n <= 0xefff_ffff)
    case V6(n) =>
      && 0 < n && !(0xffff_0000_0000 <= n <= 0xffff_ffff_ffff)
      && !(0xff00_0000_0000_0000_0000_0000_0000_0000 <= n <= 0xffff_ffff_ffff_ffff_ffff_ffff_ffff_ffff)
  }

  lemma {:induction false} HostAddressIs(ip: Ip)
    ensures HostAddress(ip) <==> !Is4In6(ip) && !Unspecified(ip) && !Multicast(ip)
  {
  }

  predicate Usable(lib: Library, family: string, e: DnsAddress) {
    var ip := lib.parse(e.address);
    ip.Some? && HostAddress(ip.value) && (ip.value.V4? <==> family == "ip")
  }

  function ServersOn(lib: Library, entries: seq<DnsAddress>): (r: seq<Server>) {
    if entries == [] then []
    else
      var n := |entries| - 1;
      var ip := lib.parse(entries[n].address);
      ServersOn(lib, entries[..n]) + if ip.Some? then [Server(ip.value, entries[n].dynamic)] else []
  }

  /** Every listed server, in document order. */
  function Listed(lib: Library, cs: seq<Command>, n: nat): (r: seq<Server>)
    requires n <= |cs|
  {
    if n == 0 then []
    else Listed(lib, cs, n - 1) + if DnsLine(cs[n - 1]) then ServersOn(lib, cs[n - 1].parsed.dns) else []
  }

  function Configured(servers: seq<Server>): (r: seq<Ip>) {
    if servers == [] then []
    else
      var n := |servers| - 1;
      Configured(servers[..n]) + if servers[n].dynamic then [] else [servers[n].ip]
  }

  ghost predicate LineOk(lib: Library, c: Command) {
    DnsLine(c) ==> c.parsed.valid && forall k :: 0 <= k < |c.parsed.dns| ==>
      Usable(lib, c.parsed.family, c.parsed.dns[k])
  }

  ghost predicate DnsOk(lib: Library, cs: seq<Command>) {
    && (forall i :: 0 <= i < |cs| ==> LineOk(lib, cs[i]))
    && Distinct(Configured(Listed(lib, cs, |cs|)))
  }

  function ServersOf(lib: Library, cs: seq<Command>): (r: seq<Ip>) {
    Sort(Configured(Listed(lib, cs, |cs|)), IpLeq)
  }

  lemma {:induction false} ConfiguredAppend(a: seq<Server>, b: seq<Server>)
    ensures Configured(a + b) == Configured(a) + Configured(b)
  {
    if b == [] {
      assert a + b == a;
    } else {
      var n := |b| - 1;
      assert (a + b)[..|a| + n] == a + b[..n];
      ConfiguredAppend(a, b[..n]);
    }
  }

  // ---- the extractor ----

  /** Adds one line's servers; rejects unusable, misplaced or repeated addresses. */
  method AddLine(lib: Library, c: Command, seen: set<Ip>, servers: seq<Ip>)
    returns (seen': set<Ip>, servers': seq<Ip>, ok: bool)
    requires DnsLine(c) && Distinct(servers) && seen == set x | x in servers
    ensures ok <==> LineOk(lib, c) && Distinct(servers + Configured(ServersOn(lib, c.parsed.dns)))
    ensures ok ==> servers' == servers + Configured(ServersOn(lib, c.parsed.dns))
    ensures ok ==> seen' == set x | x in servers'
  {
    hide Configured, ServersOn, HostAddress, Is4In6, Unspecified, Multicast;
    seen', servers', ok := seen, servers, true;
    if !c.parsed.valid {
      return seen', servers', false;
    }
    var dns, n := c.parsed.dns, |c.parsed.dns|;
    assert dns[..n] == dns;
    assert Configured(ServersOn(lib, dns[..0])) == [] by { NoServers(lib); }
    for k := 0 to n
      invariant servers' == servers + Configured(ServersOn(lib, dns[..k]))
      invariant seen' == (set x | x in servers') && Distinct(servers')
      invariant forall j :: 0 <= j < k ==> Usable(lib, c.parsed.family, dns[j])
    {
      ServersStep(lib, dns, k);
      var parsed := lib.parse(dns[k].address);
      if parsed.Some? { HostAddressIs(parsed.value); }
      if parsed.None? || Is4In6(parsed.value) || Unspecified(parsed.value) || Multicast(parsed.value)
         || parsed.value.V4? != (c.parsed.family == "ip") {
        return seen', servers', false;
      }
      var ip := parsed.value;
      if dns[k].dynamic {
        continue;
      }
      if ip in seen' {
        var first :| 0 <= first < |servers'| && servers'[first] == ip;
        ghost var repeated := servers + Configured(ServersOn(lib, dns[..k + 1]));
        assert repeated == servers' + [ip];
        assert repeated[first] == repeated[|servers'|];
        PrefixRepeats(lib, servers, dns, k + 1);
        return seen', servers', false;
      }
      seen', servers' := seen' + {ip}, servers' + [ip];
    }
  }

  lemma {:induction false} NoServers(lib: Library)
    ensures Configured(ServersOn(lib, [])) == []
  {
  }

  lemma {:induction false} ServersStep(lib: Library, dns: seq<DnsAddress>, k: nat)
    requires k < |dns|
    ensures lib.parse(dns[k].address).Some? ==>
              Configured(ServersOn(lib, dns[..k + 1])) ==
              Configured(ServersOn(lib, dns[..k])) + if dns[k].dynamic then [] else [lib.parse(dns[k].address).value]
  {
    hide Configured;
    assert dns[..k + 1][..k] == dns[..k];
    if lib.parse(dns[k].address).Some? {
      var s := Server(lib.parse(dns[k].address).value, dns[k].dynamic);
      ConfiguredAppend(ServersOn(lib, dns[..k]), [s]);
      ConfiguredOne(s);
    }
  }

  lemma {:induction false} ConfiguredOne(s: Server)
    ensures Configured([s]) == if s.dynamic then [] else [s.ip]
  {
    assert [s][..0] == [];
  }

  lemma {:induction false} ServersPrefix(lib: Library, dns: seq<DnsAddress>, k: nat)
    requires k <= |dns|
    ensures Configured(ServersOn(lib, dns[..k])) <= Configured(ServersOn(lib, dns))
    decreases |dns|
  {
    hide Configured;
    var n := |dns| - 1;
    if k == |dns| {
      assert dns[..k] == dns;
    } else {
      assert dns[..n][..k] == dns[..k];
      ServersPrefix(lib, dns[..n], k);
      var ip := lib.parse(dns[n].address);
      ConfiguredAppend(ServersOn(lib, dns[..n]), if ip.Some? then [Server(ip.value, dns[n].dynamic)] else []);
    }
  }

  lemma {:induction false} PrefixRepeats(lib: Library, servers: seq<Ip>, dns: seq<DnsAddress>, k: nat)
    requires k <= |dns| && !Distinct(servers + Configured(ServersOn(lib, dns[..k])))
    ensures !Distinct(servers + Configured(ServersOn(lib, dns)))
  {
    hide Configured, ServersOn;
    ServersPrefix(lib, dns, k);
    var a, b := servers + Configured(ServersOn(lib, dns[..k])), servers + Configured(ServersOn(lib, dns));
    assert a <= b;
    var i, j :| 0 <= i < j < |a| && a[i] == a[j];
    assert b[i] == b[j];
  }

  method DNSServers(lib: Library, cs: seq<Command>) returns (r: Option<seq<Ip>>)
    ensures r.Some? <==> DnsOk(lib, cs)
    ensures r.Some? ==> r.value == ServersOf(lib, cs)
  {
    hide Configured, ServersOn, LineOk, Sort;
    var servers: seq<Ip> := [];
    var seen: set<Ip> := {};
    assert Configured(Listed(lib, cs, 0)) == [] by { NoneListed(lib, cs); }
    for i := 0 to |cs|
      invariant servers == Configured(Listed(lib, cs, i)) && Distinct(servers)
      invariant seen == set x | x in servers
      invariant forall j :: 0 <= j < i ==> LineOk(lib, cs[j])
    {
      if cs[i].parent != -1 || !cs[i].parsed.kind.DnsServers? {
        assert LineOk(lib, cs[i]) && Listed(lib, cs, i + 1) == Listed(lib, cs, i) by { OtherLine(lib, cs, i); }
        continue;
      }
      ConfiguredAppend(Listed(lib, cs, i), ServersOn(lib, cs[i].parsed.dns));
      var ok;
      seen, servers, ok := AddLine(lib, cs[i], seen, servers);
      if !ok {
        if LineOk(lib, cs[i]) { ListedRepeats(lib, cs, i + 1); }
        return None;
      }
    }
    return Some(Sort(servers, IpLeq));
  }

  lemma {:induction false} NoneListed(lib: Library, cs: seq<Command>)
    ensures Configured(Listed(lib, cs, 0)) == []
  {
  }

  lemma {:induction false} OtherLine(lib: Library, cs: seq<Command>, i: nat)
    requires i < |cs| && !DnsLine(cs[i])
    ensures LineOk(lib, cs[i]) && Listed(lib, cs, i + 1) == Listed(lib, cs, i)
  {
  }

  lemma {:induction false} ListedPrefix(lib: Library, cs: seq<Command>, i: nat, n: nat)
    requires i <= n <= |cs|
    ensures Configured(Listed(lib, cs, i)) <= Configured(Listed(lib, cs, n))
    decreases n
  {
    hide Configured, ServersOn, DnsLine;
    if i < n {
      ListedPrefix(lib, cs, i, n - 1);
      ConfiguredAppend(Listed(lib, cs, n - 1), if DnsLine(cs[n - 1]) then ServersOn(lib, cs[n - 1].parsed.dns) else []);
    }
  }

  lemma {:induction false} ListedRepeats(lib: Library, cs: seq<Command>, i: nat)
    requires i <= |cs| && !Distinct(Configured(Listed(lib, cs, i)))
    ensures !DnsOk(lib, cs)
  {
    hide Configured, Listed, LineOk;
    ListedPrefix(lib, cs, i, |cs|);
    var a, b := Configured(Listed(lib, cs, i)), Configured(Listed(lib, cs, |cs|));
    var j, k :| 0 <= j < k < |a| && a[j] == a[k];
    assert b[j] == b[k];
  }

  /** IPv4 before IPv6, then by value. */
  predicate Precedes(a: Ip, b: Ip) { if a.V4? == b.V4? then a.bits < b.bits else a.V4? && b.V6? }

  /** The servers reported are the configured ones, in strictly ascending order. */
  lemma {:induction false} ServersAscend(lib: Library, cs: seq<Command>)
    requires DnsOk(lib, cs)
    ensures var servers := ServersOf(lib, cs);
            && multiset(servers) == multiset(Configured(Listed(lib, cs, |cs|)))
            && forall i, j :: 0 <= i < j < |servers| ==> Precedes(servers[i], servers[j])
  {
    hide Sort, Configured, Listed, LineOk, TotalOrder;
    var all, servers := Configured(Listed(lib, cs, |cs|)), ServersOf(lib, cs);
    IpOrder();
    Preordered(IpLeq);
    SortSorted(all, IpLeq);
    DistinctCount(all);
    DistinctCount(servers);
  }

  // ---- the guard ----

  function DnsOwned(cs: seq<Command>): nat -> bool { (i: nat) => i < |cs| && DnsLine(cs[i]) }

  /** Everything but the selected configured address. */
  function Others(address: Ip): Server -> bool { (s: Server) => s.ip != address || s.dynamic }

  /** The guard compares servers in canonical spelling. */
  function Spell(lib: Library, servers: seq<Server>): (r: seq<DnsAddress>)
    ensures |r| == |servers|
  {
    seq(|servers|, k requires 0 <= k < |servers| => DnsAddress(lib.show(servers[k].ip), servers[k].dynamic))
  }

  function KeptServers(lib: Library, cs: seq<Command>, n: nat, address: Ip): seq<Server>
    requires n <= |cs|
  {
    Filter(Listed(lib, cs, n), Others(address))
  }

  ghost predicate DnsUpdateAccepted(lib: Library, before: seq<Command>, after: seq<Command>, address: Ip) {
    && DnsOk(lib, before) && DnsOk(lib, after)
    && Remaining(before, DnsOwned(before)) == Remaining(after, DnsOwned(after))
    && Spell(lib, KeptServers(lib, before, |before|, address)) == Spell(lib, KeptServers(lib, after, |after|, address))
  }

  lemma {:induction false} SpellAppend(lib: Library, a: seq<Server>, b: seq<Server>)
    ensures Spell(lib, a + b) == Spell(lib, a) + Spell(lib, b)
  {
  }

  /** One line's servers, other than the selected one, in canonical spelling. */
  method KeepLine(lib: Library, c: Command, address: Ip) returns (kept: seq<DnsAddress>)
    requires DnsLine(c) && LineOk(lib, c)
    ensures kept == Spell(lib, Filter(ServersOn(lib, c.parsed.dns), Others(address)))
  {
    hide Filter, ServersOn, HostAddress;
    var dns, n := c.parsed.dns, |c.parsed.dns|;
    assert dns[..n] == dns;
    kept := [];
    assert Filter(ServersOn(lib, dns[..0]), Others(address)) == [] by { NoKept(lib, address); }
    for k := 0 to n
      invariant kept == Spell(lib, Filter(ServersOn(lib, dns[..k]), Others(address)))
    {
      hide Spell;
      assert Usable(lib, c.parsed.family, dns[k]);
      var server := Server(lib.parse(dns[k].address).value, dns[k].dynamic);
      KeepStep(lib, dns, k, server, address);
      if server.ip == address && !server.dynamic {
        continue;
      }
      kept := kept + [DnsAddress(lib.show(server.ip), server.dynamic)];
    }
  }

  lemma {:induction false} NoKept(lib: Library, address: Ip)
    ensures Filter(ServersOn(lib, []), Others(address)) == []
  {
  }

  lemma {:induction false} KeepStep(lib: Library, dns: seq<DnsAddress>, k: nat, server: Server, address: Ip)
    requires k < |dns| && lib.parse(dns[k].address) == Some(server.ip) && dns[k].dynamic == server.dynamic
    ensures Spell(lib, Filter(ServersOn(lib, dns[..k + 1]), Others(address))) ==
            Spell(lib, Filter(ServersOn(lib, dns[..k]), Others(address))) +
              if Others(address)(server) then [DnsAddress(lib.show(server.ip), server.dynamic)] else []
  {
    assert dns[..k + 1][..k] == dns[..k];
    FilterAppend(ServersOn(lib, dns[..k]), [server], Others(address));
    SpellAppend(lib, Filter(ServersOn(lib, dns[..k]), Others(address)), Filter([server], Others(address)));
  }

  method DnsRemaining(lib: Library, cs: seq<Command>, address: Ip) returns (r: Option<(seq<string>, seq<DnsAddress>)>)
    requires forall i :: 0 <= i < |cs| ==> -1 <= cs[i].parent < i
    ensures r.Some? <==> DnsOk(lib, cs)
    ensures r.Some? ==> r.value.0 == Remaining(cs, DnsOwned(cs))
    ensures r.Some? ==> r.value.1 == Spell(lib, KeptServers(lib, cs, |cs|, address))
  {
    hide Filter, ServersOn, Scope, Spell, Others, ServersOf, LineOk;
    var checked := DNSServers(lib, cs);
    if checked.None? {
      return None;
    }
    var scopes: seq<string>, remaining: seq<string>, servers: seq<DnsAddress> := [], [], [];
    assert ScopesOf(cs, []);
    assert Spell(lib, KeptServers(lib, cs, 0, address)) == [] by { NoneKept(lib, cs, address); }
    for i := 0 to |cs|
      invariant |scopes| == i && ScopesOf(cs, scopes)
      invariant remaining == KeptScopes(cs, i, DnsOwned(cs))
      invariant servers == Spell(lib, KeptServers(lib, cs, i, address))
    {
      hide ScopesOf, KeptServers, Listed;
      ScopesStep(cs, scopes);
      KeptServersStep(lib, cs, i, address);
      var c := cs[i];
      var scope := ScopeFrom(c, scopes);
      scopes := scopes + [scope];
      if c.parent != -1 || !c.parsed.kind.DnsServers? {
        remaining := remaining + [scope];
        continue;
      }
      var kept := KeepLine(lib, c, address);
      servers := servers + kept;
    }
    return Some((remaining, servers));
  }

  lemma {:induction false} KeptServersStep(lib: Library, cs: seq<Command>, i: nat, address: Ip)
    requires i < |cs|
    ensures Spell(lib, KeptServers(lib, cs, i + 1, address)) ==
            Spell(lib, KeptServers(lib, cs, i, address)) +
              if DnsLine(cs[i]) then Spell(lib, Filter(ServersOn(lib, cs[i].parsed.dns), Others(address))) else []
  {
    hide Filter, ServersOn, Spell, Others;
    if DnsLine(cs[i]) {
      FilterAppend(Listed(lib, cs, i), ServersOn(lib, cs[i].parsed.dns), Others(address));
      SpellAppend(lib, KeptServers(lib, cs, i, address), Filter(ServersOn(lib, cs[i].parsed.dns), Others(address)));
    } else {
      assert Listed(lib, cs, i + 1) == Listed(lib, cs, i);
    }
  }

  lemma {:induction false} NoneKept(lib: Library, cs: seq<Command>, address: Ip)
    ensures Spell(lib, KeptServers(lib, cs, 0, address)) == []
  {
  }

  /** Permits only the selected configured address to change. */
  method CheckDNSServerUpdate(lib: Library, before: seq<Command>, after: seq<Command>, address: Ip)
    returns (accepted: bool)
    requires forall i :: 0 <= i < |before| ==> -1 <= before[i].parent < i
    requires forall i :: 0 <= i < |after| ==> -1 <= after[i].parent < i
    ensures accepted <==> DnsUpdateAccepted(lib, before, after, address)
  {
    hide DnsOk, Remaining, Spell, KeptServers;
    var previous := DnsRemaining(lib, before, address);
    if previous.None? {
      return false;
    }
    var current := DnsRemaining(lib, after, address);
    return current.Some? && previous.value == current.value;
  }

  // ---- what acceptance means ----

  lemma {:induction false} SpellInjective(lib: Library, a: seq<Server>, b: seq<Server>)
    requires Faithful(lib)
    ensures Spell(lib, a) == Spell(lib, b) <==> a == b
  {
    if Spell(lib, a) == Spell(lib, b) {
      assert |a| == |b|;
      forall k | 0 <= k < |a| ensures a[k] == b[k] {
        assert Spell(lib, a)[k] == Spell(lib, b)[k];
        assert lib.parse(lib.show(a[k].ip)) == lib.parse(lib.show(b[k].ip));
      }
    }
  }

  lemma {:induction false} ConfiguredFilter(servers: seq<Server>, address: Ip)
    ensures Filter(Configured(servers), (x: Ip) => x != address) == Configured(Filter(servers, Others(address)))
  {
    hide Filter;
    var others := (x: Ip) => x != address;
    if servers == [] {
      FilterNone(others);
      FilterNone(Others(address));
    } else {
      var n := |servers| - 1;
      var front, s := servers[..n], servers[n];
      ConfiguredFilter(front, address);
      assert servers == front + [s];
      FilterServer(s, address);
      ConfiguredAppend(front, [s]);
      FilterAppend(front, [s], Others(address));
      FilterAppend(Configured(front), Configured([s]), others);
      ConfiguredAppend(Filter(front, Others(address)), Filter([s], Others(address)));
    }
  }

  lemma {:induction false} FilterNone<T(!new)>(keep: T -> bool)
    ensures Filter([], keep) == []
  {
  }

  lemma {:induction false} FilterServer(s: Server, address: Ip)
    ensures Filter(Configured([s]), (x: Ip) => x != address) == Configured(Filter([s], Others(address)))
  {
    hide Filter;
    ConfiguredOne(s);
    FilterOne(s, Others(address));
    FilterOne(s.ip, (x: Ip) => x != address);
    FilterNone((x: Ip) => x != address);
  }

  /** Comparing spelled addresses is comparing servers: the guard accepts exactly when both
      documents extract, the servers kept are the same in the same order, learned ones
      included, and all other lines have the same scopes in the same order. */
  lemma {:induction false} DnsUpdateExact(lib: Library, before: seq<Command>, after: seq<Command>, address: Ip)
    requires Faithful(lib)
    ensures DnsUpdateAccepted(lib, before, after, address) <==>
              && DnsOk(lib, before) && DnsOk(lib, after)
              && Remaining(before, DnsOwned(before)) == Remaining(after, DnsOwned(after))
              && KeptServers(lib, before, |before|, address) == KeptServers(lib, after, |after|, address)
  {
    hide KeptServers, Spell, DnsOk, Remaining;
    SpellInjective(lib, KeptServers(lib, before, |before|, address), KeptServers(lib, after, |after|, address));
  }

  /** An accepted update leaves what the extractor reports, but for the selected address, as
      it was, however the addresses were regrouped over lines. */
  lemma {:induction false} DnsUpdateSound(lib: Library, before: seq<Command>, after: seq<Command>, address: Ip)
    requires Faithful(lib) && DnsUpdateAccepted(lib, before, after, address)
    ensures var others := (x: Ip) => x != address;
            Filter(ServersOf(lib, before), others) == Filter(ServersOf(lib, after), others)
  {
    hide Filter, Sort, Configured, Listed, Spell, Others, TotalOrder, IpLeq, DnsOk, Remaining;
    var others := (x: Ip) => x != address;
    var a, b := Listed(lib, before, |before|), Listed(lib, after, |after|);
    DnsUpdateExact(lib, before, after, address);
    ConfiguredFilter(a, address);
    ConfiguredFilter(b, address);
    IpOrder();
    FilterSort(Configured(a), IpLeq, others);
    FilterSort(Configured(b), IpLeq, others);
  }
}
