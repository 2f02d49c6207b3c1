/** Which packets an access-list rule decides, and that the entry sent for it decides the same
    ones the same way. */
module AclTraffic {
  import opened Prelude
  import opened Decimal
  import opened Prefixes
  import opened AclRules
  import opened RuleReconcile
  import StandardSource

  /** A packet, over the addresses of its family. */
  datatype Packet<+A> = Packet(
    source: A, destination: A, protocol: Int64,
    sourcePort: Option<Int64>, destinationPort: Option<Int64>, dscp: Int64)

  /** Whether a prefix, as it is written, covers an address. */
  type Coverage<!A> = (string, A) -> bool

  /** What happens to a packet that a rule or an entry decides. */
  datatype Fate = Fate(permitted: bool, mark: Option<Int64>, priority: Option<Int64>, logged: bool)

  predicate Equals(wanted: Option<Int64>, value: Int64) { wanted.Some? ==> wanted.value == value }

  predicate InPorts(range: Option<Ports>, port: Option<Int64>) {
    range.Some? ==> port.Some? && range.value.first <= port.value <= range.value.last
  }

  // ---- rules ----

  predicate RuleDecides<A>(covers: Coverage<A>, r: IpRule, p: Packet<A>) {
    && (r.source == "any" || covers(r.source, p.source))
    && (r.destination == "any" || covers(r.destination, p.destination))
    && Equals(r.protocol, p.protocol) && Equals(r.dscp, p.dscp)
    && InPorts(r.sourcePort, p.sourcePort) && InPorts(r.destinationPort, p.destinationPort)
  }

  function RuleFate(r: IpRule): (fate: Fate) { Fate(r.action == "permit", r.dscpMark, r.priority, r.log) }

  // ---- entries ----

  /** A port, or two joined by two dots. */
  function ReadPorts(s: string): (r: Option<Ports>) {
    var n := Leading(s);
    if n == 0 || !Numeral(s[..n]) || Value(s[..n]) > 65535 then None
    else if n == |s| then Some(Ports(Value(s[..n]), Value(s[..n])))
    else if ".." <= s[n..] && Numeral(s[n + 2..]) && Value(s[n + 2..]) <= 65535 then
      Some(Ports(Value(s[..n]), Value(s[n + 2..])))
    else None
  }

  predicate InText(text: Option<string>, port: Option<Int64>) {
    text.Some? ==> ReadPorts(text.value).Some? && InPorts(ReadPorts(text.value), port)
  }

  predicate EntryDecides<A>(covers: Coverage<A>, e: Fields, p: Packet<A>) {
    && covers(e.source, p.source) && covers(e.destination, p.destination)
    && Equals(e.protocol, p.protocol) && Equals(e.dscp, p.dscp)
    && InText(e.sourcePort, p.sourcePort) && InText(e.destinationPort, p.destinationPort)
  }

  function EntryFate(e: Fields): (fate: Fate) {
    Fate(e.forward == "ACCEPT", e.dscpMark, e.priority, e.log == Some("openconfig-acl:LOG_SYSLOG"))
  }

  lemma {:induction false} PortsRead(p: Ports)
    requires 0 <= p.first <= p.last <= 65535
    ensures ReadPorts(PortText(p)) == Some(p)
  {
    hide Write, Value, Leading;
    var x, u := Write(p.first), Tail(p);
    assert PortText(p) == x + u;
    LeadingDigits(x, u);
    assert (x + u)[..|x|] == x && (x + u)[|x|..] == u;
    if p.first != p.last { assert u[2..] == Write(p.last) && (x + u)[|x| + 2..] == u[2..]; }
    else { assert x + u == x && (x + u)[..|x|] == x; }
  }

  /** The spelling that covers every address of the family. */
  function Everything(f: IpFamily): (s: string) { if f == V4 then "0.0.0.0/0" else "::/0" }

  /** The entry sent for a legal rule decides exactly the packets the rule does, and does the
      same with them, in either family. */
  lemma {:induction false} SameTraffic<A(!new)>(f: IpFamily, canonical6: Canonical6, covers: Coverage<A>, r: IpRule,
        p: Packet<A>)
    requires IpLegal(f, canonical6, r) && forall a: A :: covers(Everything(f), a)
    ensures var e := IpFields(f, canonical6, r);
            (EntryDecides(covers, e, p) <==> RuleDecides(covers, r, p)) && EntryFate(e) == RuleFate(r)
  {
    hide PortText, ReadPorts, PrefixOk4;
    if r.sourcePort.Some? { PortsRead(r.sourcePort.value); }
    if r.destinationPort.Some? { PortsRead(r.destinationPort.value); }
    assert covers(Everything(f), p.source) && covers(Everything(f), p.destination);
    assert "DROP" != "ACCEPT" && "permit" != "deny";
  }

  /** The temporary rule of a list that is to be empty decides every packet, and lets none
      through. */
  lemma {:induction false} TemporaryBlocks<A>(f: IpFamily, canonical6: Canonical6, covers: Coverage<A>, p: Packet<A>)
    ensures var r := IpLists(f, canonical6).temporary;
            RuleDecides(covers, r, p) && !RuleFate(r).permitted && !RuleFate(r).logged
    ensures Initial(IpLists(f, canonical6), map[]) == map[1 := IpLists(f, canonical6).temporary]
  {
  }

  // ---- IPv4 and standard lists ----

  predicate Covers4(s: string, a: Address) { ParsePrefix(s).Some? && Contains(ParsePrefix(s).value, a) }

  lemma {:induction false} Everything4(a: Address)
    ensures Covers4(Everything(V4), a)
  {
    hide ParsePrefix, Contains;
    Any4();
    ParseWritePrefix(Prefix(0, 0));
    StandardSource.WholeSpace(0, a);
  }

  predicate StandardDecides(r: StandardRule, a: Address) { r.source == "any" || Covers4(r.source, a) }

  predicate StandardEntryDecides(e: StandardFields, a: Address) { Covers4(e.source, a) }

  /** Likewise for standard lists, which look at sources alone. */
  lemma {:induction false} SameStandardTraffic(r: StandardRule, a: Address)
    requires StandardLegal(r)
    ensures StandardEntryDecides(FieldsOf(r), a) <==> StandardDecides(r, a)
    ensures FieldsOf(r).forward == if r.action == "permit" then "ACCEPT" else "DROP"
    ensures StandardDecides(StandardLists().temporary, a) && StandardLists().temporary.action == "deny"
  {
    hide PrefixOk4, Covers4;
    Everything4(a);
  }

  /** For IPv4 nothing is left to assume. */
  lemma {:induction false} SameTraffic4(canonical6: Canonical6, r: IpRule, p: Packet<Address>)
    requires IpLegal(V4, canonical6, r)
    ensures var e := IpFields(V4, canonical6, r);
            (EntryDecides(Covers4, e, p) <==> RuleDecides(Covers4, r, p)) && EntryFate(e) == RuleFate(r)
  {
    hide IpLegal, IpFields, EntryDecides, RuleDecides, EntryFate, RuleFate, Covers4, Everything;
    forall a: Address ensures Covers4(Everything(V4), a) { Everything4(a); }
    SameTraffic(V4, canonical6, Covers4, r, p);
  }
}
