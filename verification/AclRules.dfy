/** Extended and standard IP access-list rules: what is legal, and the RESTCONF fields they
    are sent as. */
module AclRules {
  import opened Prelude
  import opened Text
  import opened Decimal
  import opened Prefixes
  import opened RuleReconcile
  import opened AclNames
  import StandardSource

  datatype Ports = Ports(first: Int64, last: Int64)

  /** The sequence number is the rule's key and not part of it. */
  datatype IpRule = IpRule(
    action: string, source: string, destination: string, protocol: Option<Int64>,
    sourcePort: Option<Ports>, destinationPort: Option<Ports>,
    dscp: Option<Int64>, dscpMark: Option<Int64>, priority: Option<Int64>, log: bool)

  datatype StandardRule = StandardRule(action: string, source: string)

  /** Canonical IPv6 prefixes, of length at least one and not IPv4-mapped, as the address
      library decides them. */
  type Canonical6 = string -> bool

  datatype IpFamily = V4 | V6

  const ANY4 := "0.0.0.0/0"
  const ANY6 := "::/0"
  const TCP := 6
  const UDP := 17

  // ---- legality ----

  predicate ActionOk(action: string) { action == "permit" || action == "deny" }

  predicate PrefixOk4(s: string) {
    var p := ParsePrefix(s);
    p.Some? && p.value.bits != 0 && WritePrefix(Masked(p.value)) == s
  }

  predicate AddressOk(f: IpFamily, canonical6: Canonical6, s: string) {
    s == "any" || if f == V4 then PrefixOk4(s) else canonical6(s)
  }

  predicate PortsOk(p: Option<Ports>, protocol: Option<Int64>) {
    p.Some? ==> (protocol == Some(TCP) || protocol == Some(UDP)) && 0 <= p.value.first <= p.value.last <= 65535
  }

  predicate UpTo(v: Option<Int64>, last: Int64) { v.Some? ==> 0 <= v.value <= last }

  predicate IpLegal(f: IpFamily, canonical6: Canonical6, r: IpRule) {
    && ActionOk(r.action) && (r.log ==> f == V6)
    && AddressOk(f, canonical6, r.source) && AddressOk(f, canonical6, r.destination)
    && UpTo(r.protocol, 254) && (f == V4 ==> r.protocol != Some(0))
    && PortsOk(r.sourcePort, r.protocol) && PortsOk(r.destinationPort, r.protocol)
    && UpTo(r.dscp, 63) && UpTo(r.dscpMark, 63) && UpTo(r.priority, 7)
  }

  predicate StandardLegal(r: StandardRule) { ActionOk(r.action) && (r.source == "any" || PrefixOk4(r.source)) }

  /** One rule of an extended list, checked as the validator does, item by item. */
  method CheckIpRule(f: IpFamily, canonical6: Canonical6, r: IpRule) returns (ok: bool)
    ensures ok <==> IpLegal(f, canonical6, r)
  {
    hide PrefixOk4;
    if r.action != "permit" && r.action != "deny" {
      return false;
    }
    if r.log && f != V6 {
      return false;
    }
    for i := 0 to 2
      invariant i > 0 ==> AddressOk(f, canonical6, r.source)
      invariant i > 1 ==> AddressOk(f, canonical6, r.destination)
    {
      var address := [r.source, r.destination][i];
      if address == "any" {
        continue;
      }
      if (f == V4 && !PrefixOk4(address)) || (f == V6 && !canonical6(address)) {
        return false;
      }
    }
    if r.protocol.Some? {
      var protocol := r.protocol.value;
      if protocol < 0 || protocol > 254 || (f == V4 && protocol == 0) {
        return false;
      }
    }
    for i := 0 to 2
      invariant i > 0 ==> PortsOk(r.sourcePort, r.protocol)
      invariant i > 1 ==> PortsOk(r.destinationPort, r.protocol)
    {
      var ports := [r.sourcePort, r.destinationPort][i];
      if ports.None? {
        continue;
      }
      if r.protocol.None? || (r.protocol.value != 6 && r.protocol.value != 17) {
        return false;
      }
      if ports.value.first < 0 || ports.value.last > 65535 || ports.value.first > ports.value.last {
        return false;
      }
    }
    for i := 0 to 3
      invariant i > 0 ==> UpTo(r.dscp, 63)
      invariant i > 1 ==> UpTo(r.dscpMark, 63)
      invariant i > 2 ==> UpTo(r.priority, 7)
    {
      var (value, last) := [(r.dscp, 63), (r.dscpMark, 63), (r.priority, 7)][i];
      if value.Some? && (value.value < 0 || value.value > last) {
        return false;
      }
    }
    return true;
  }

  const DENY_ANY := IpRule("deny", "any", "any", None, None, None, None, None, None, false)

  /** Extended lists compare REST sequences before writing; standard ones do not. */
  function IpLists(f: IpFamily, canonical6: Canonical6): (r: Family<IpRule>) {
    Family((name: string) => IpName(f == V4, name), (r: IpRule) => IpLegal(f, canonical6, r), DENY_ANY, true)
  }

  function StandardLists(): (r: Family<StandardRule>) {
    Family((name: string) => StandardName(name), (r: StandardRule) => StandardLegal(r),
           StandardRule("deny", "any"), false)
  }

  /** The rule an empty list is created with passes the family's own validation, alone. */
  lemma {:induction false} TemporaryLegal(f: IpFamily, canonical6: Canonical6)
    ensures RuleReconcile.Valid(IpLists(f, canonical6), Initial(IpLists(f, canonical6), map[]))
    ensures RuleReconcile.Valid(StandardLists(), Initial(StandardLists(), map[]))
  {
  }

  /** Extended lists compare sequences before writing, and standard lists do not; no name serves
      both. */
  lemma {:induction false} FamiliesDiffer(f: IpFamily, canonical6: Canonical6, name: string)
    ensures IpLists(f, canonical6).probed && !StandardLists().probed
    ensures !(IpLists(f, canonical6).named(name) && StandardLists().named(name))
  {
    hide IpName, StandardName;
    if StandardName(name) { StandardApart(f == V4, name); }
  }

  // ---- fields ----

  datatype Fields = Fields(
    source: string, destination: string, protocol: Option<Int64>,
    sourcePort: Option<string>, destinationPort: Option<string>,
    dscp: Option<Int64>, dscpMark: Option<Int64>, priority: Option<Int64>,
    forward: string, log: Option<string>)

  datatype StandardFields = StandardFields(source: string, forward: string)

  function Sent(f: IpFamily, s: string): (r: string) {
    if s != "any" then s else if f == V4 then ANY4 else ANY6
  }

  function Forward(action: string): (r: string) { if action == "deny" then "DROP" else "ACCEPT" }

  function PortText(p: Ports): (r: string)
    requires 0 <= p.first <= p.last
  {
    if p.first == p.last then Write(p.first) else Write(p.first) + ".." + Write(p.last)
  }

  function OptionalPort(p: Option<Ports>): (r: Option<string>)
    requires p.Some? ==> 0 <= p.value.first <= p.value.last
  {
    if p.None? then None else Some(PortText(p.value))
  }

  function IpFields(f: IpFamily, canonical6: Canonical6, r: IpRule): (e: Fields)
    requires IpLegal(f, canonical6, r)
  {
    Fields(Sent(f, r.source), Sent(f, r.destination), r.protocol,
           OptionalPort(r.sourcePort), OptionalPort(r.destinationPort),
           r.dscp, r.dscpMark, r.priority, Forward(r.action), if r.log then Some("openconfig-acl:LOG_SYSLOG") else None)
  }

  function FieldsOf(r: StandardRule): (e: StandardFields) { StandardFields(Sent(V4, r.source), Forward(r.action)) }

  // ---- the fields determine the rule ----

  lemma {:induction false} Any4()
    ensures WritePrefix(Prefix(0, 0)) == ANY4
  {
    assert Write(0) == "0";
    assert OctetTexts(0) == ["0", "0", "0", "0"];
    assert Join(["0"], '.') == "0";
    assert ["0", "0"][1..] == ["0"];
    assert ["0", "0", "0"][1..] == ["0", "0"];
    assert ["0", "0", "0", "0"][1..] == ["0", "0", "0"];
    assert WriteIPv4(0) == "0.0.0.0";
  }

  /** No legal prefix spells the whole address space, so "any" stays recognisable. */
  lemma {:induction false} AnyIsApart(f: IpFamily, canonical6: Canonical6, s: string)
    requires AddressOk(f, canonical6, s) && !canonical6(ANY6)
    ensures s != "any" ==> s != Sent(f, "any")
  {
    hide ParsePrefix, WritePrefix, Masked;
    Any4();
    ParseWritePrefix(Prefix(0, 0));
  }

  lemma {:induction false} SentInjective(f: IpFamily, canonical6: Canonical6, a: string, b: string)
    requires AddressOk(f, canonical6, a) && AddressOk(f, canonical6, b) && !canonical6(ANY6) && Sent(f, a) == Sent(f, b)
    ensures a == b
  {
    hide AddressOk;
    AnyIsApart(f, canonical6, a);
    AnyIsApart(f, canonical6, b);
  }

  lemma {:induction false} WriteInjective(a: nat, b: nat)
    requires Write(a) == Write(b)
    ensures a == b
  {
    assert Value(Write(a)) == Value(Write(b));
  }

  /** How many digits a text begins with. */
  function Leading(s: string): (n: nat)
    ensures n <= |s|
  {
    if s == "" || !Digit(s[0]) then 0 else 1 + Leading(s[1..])
  }

  lemma {:induction false} LeadingDigits(x: string, u: string)
    requires (forall i :: 0 <= i < |x| ==> Digit(x[i])) && (u != "" ==> u[0] == '.')
    ensures Leading(x + u) == |x|
  {
    if x == "" {
      assert x + u == u;
    } else {
      LeadingDigits(x[1..], u);
      assert (x + u)[1..] == x[1..] + u;
    }
  }

  /** A numeral, and what follows it from a dot on, can be told apart. */
  lemma {:induction false} NumeralThenDot(x: string, y: string, u: string, v: string)
    requires Numeral(x) && Numeral(y) && x + u == y + v
    requires (u != "" ==> u[0] == '.') && (v != "" ==> v[0] == '.')
    ensures x == y && u == v
  {
    LeadingDigits(x, u);
    LeadingDigits(y, v);
    assert (x + u)[..|x|] == x && (y + v)[..|y|] == y && (x + u)[|x|..] == u && (y + v)[|y|..] == v;
  }

  function Tail(p: Ports): (r: string)
    requires 0 <= p.last
  {
    if p.first == p.last then "" else ".." + Write(p.last)
  }

  lemma {:induction false} PortTextInjective(p: Ports, q: Ports)
    requires 0 <= p.first <= p.last && 0 <= q.first <= q.last && PortText(p) == PortText(q)
    ensures p == q
  {
    hide Write;
    assert PortText(p) == Write(p.first) + Tail(p) && PortText(q) == Write(q.first) + Tail(q);
    NumeralThenDot(Write(p.first), Write(q.first), Tail(p), Tail(q));
    WriteInjective(p.first, q.first);
    assert Tail(p) != "" ==> Tail(p)[2..] == Write(p.last);
    assert Tail(q) != "" ==> Tail(q)[2..] == Write(q.last);
    if p.first != p.last { WriteInjective(p.last, q.last); }
  }

  /** Two legal extended rules with the same fields are the same rule. */
  lemma {:induction false} IpFieldsInjective(f: IpFamily, canonical6: Canonical6, r: IpRule, q: IpRule)
    requires IpLegal(f, canonical6, r) && IpLegal(f, canonical6, q) && !canonical6(ANY6)
    requires IpFields(f, canonical6, r) == IpFields(f, canonical6, q)
    ensures r == q
  {
    hide AddressOk, Sent, PortText;
    SentInjective(f, canonical6, r.source, q.source);
    SentInjective(f, canonical6, r.destination, q.destination);
    if r.sourcePort.Some? { PortTextInjective(r.sourcePort.value, q.sourcePort.value); }
    if r.destinationPort.Some? { PortTextInjective(r.destinationPort.value, q.destinationPort.value); }
  }

  /** Two legal standard rules with the same fields are the same rule. */
  lemma {:induction false} StandardFieldsInjective(r: StandardRule, q: StandardRule)
    requires StandardLegal(r) && StandardLegal(q) && FieldsOf(r) == FieldsOf(q)
    ensures r == q
  {
    hide PrefixOk4, Sent;
    SentInjective(V4, (s: string) => false, r.source, q.source);
  }

  /** What is read back from native configuration is always a legal source, so an observed
      rule can be sent again unchanged. */
  lemma {:induction false} NormalisedLegal(fields: seq<string>)
    requires StandardSource.Normalise(fields).Ok?
    ensures StandardSource.Normalise(fields).value == "any" || PrefixOk4(StandardSource.Normalise(fields).value)
  {
    hide StandardSource.Normalise, StandardSource.OutBlock, WritePrefix, ParsePrefix, Size;
    StandardSource.OutCanonical(fields);
    var p := StandardSource.OutBlock(fields);
    if p.bits > 0 {
      assert Masked(p) == p;
    }
  }
}
