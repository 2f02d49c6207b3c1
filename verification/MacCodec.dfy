/** MAC access-list rules and their RESTCONF entries: the encoder's output decodes to the
    rule it came from. */
module MacCodec {
  import opened Prelude
  import opened Text

  // ---- addresses ----

  type Byte = n: nat | n < 256

  const MAC_BYTES := 6

  type Mac = a: seq<Byte> | |a| == MAC_BYTES witness [0, 0, 0, 0, 0, 0]

  const ZERO: Mac := [0, 0, 0, 0, 0, 0]

  function HexDigit(n: nat): (c: char)
    requires n < 16
  {
    if n < 10 then ('0' as int + n) as char else ('a' as int + n - 10) as char
  }

  predicate IsHex(c: char) { '0' <= c <= '9' || 'a' <= c <= 'f' || 'A' <= c <= 'F' }

  function HexValue(c: char): (n: nat)
    requires IsHex(c)
    ensures n < 16
  {
    if c <= '9' then c as int - '0' as int
    else if c <= 'F' then c as int - 'A' as int + 10
    else c as int - 'a' as int + 10
  }

  function WriteByte(b: Byte): (s: string)
    ensures |s| == 2
  {
    [HexDigit(b / 16), HexDigit(b % 16)]
  }

  function ReadByte(s: string, at: nat): (b: Option<Byte>)
    requires at + 2 <= |s|
  {
    if IsHex(s[at]) && IsHex(s[at + 1]) then Some(16 * HexValue(s[at]) + HexValue(s[at + 1])) else None
  }

  lemma {:induction false} ByteRoundTrip(s: string, at: nat, b: Byte)
    requires at + 2 <= |s| && s[at..at + 2] == WriteByte(b)
    ensures ReadByte(s, at) == Some(b)
  {
    assert s[at] == WriteByte(b)[0] && s[at + 1] == WriteByte(b)[1];
  }

  /** Six bytes at the given positions, if all are hexadecimal. */
  function ReadBytes(s: string, at: seq<nat>): (a: Option<Mac>)
    requires |at| == MAC_BYTES && forall i :: 0 <= i < MAC_BYTES ==> at[i] + 2 <= |s|
    ensures a.Some? <==> forall i :: 0 <= i < MAC_BYTES ==> ReadByte(s, at[i]).Some?
    ensures a.Some? ==> forall i :: 0 <= i < MAC_BYTES ==> Some(a.value[i]) == ReadByte(s, at[i])
  {
    if forall i :: 0 <= i < MAC_BYTES ==> ReadByte(s, at[i]).Some? then
      var bytes: seq<Byte> := seq(MAC_BYTES, i requires 0 <= i < MAC_BYTES => ReadByte(s, at[i]).value);
      Some(bytes)
    else None
  }

  /** Six pairs joined by one separator, colon or hyphen; or three groups of four joined by
      dots. Longer hardware addresses are not 48-bit addresses. */
  function ParseMAC(s: string): (a: Option<Mac>) {
    if |s| == 17 && (s[2] == ':' || s[2] == '-') then
      if s[5] == s[2] && s[8] == s[2] && s[11] == s[2] && s[14] == s[2] then ReadBytes(s, [0, 3, 6, 9, 12, 15])
      else None
    else if |s| == 14 && s[2] != ':' && s[2] != '-' && s[4] == '.' then
      if s[9] == '.' then ReadBytes(s, [0, 2, 5, 7, 10, 12]) else None
    else None
  }

  function WriteMAC(a: Mac): (s: string)
    ensures |s| == 17
  {
    WriteByte(a[0]) + ":" + WriteByte(a[1]) + ":" + WriteByte(a[2]) + ":" + WriteByte(a[3]) + ":" + WriteByte(a[4])
      + ":" + WriteByte(a[5])
  }

  lemma {:induction false} WrittenAt(a: Mac)
    ensures var s := WriteMAC(a);
            && s[0..2] == WriteByte(a[0]) && s[3..5] == WriteByte(a[1]) && s[6..8] == WriteByte(a[2])
            && s[9..11] == WriteByte(a[3]) && s[12..14] == WriteByte(a[4]) && s[15..17] == WriteByte(a[5])
            && s[2] == s[5] == s[8] == s[11] == s[14] == ':'
  {
    hide WriteByte;
  }

  lemma {:induction false} MacRoundTrip(a: Mac)
    ensures ParseMAC(WriteMAC(a)) == Some(a)
  {
    hide WriteByte, WriteMAC, ReadByte;
    var s := WriteMAC(a);
    WrittenAt(a);
    ByteRoundTrip(s, 0, a[0]);
    ByteRoundTrip(s, 3, a[1]);
    ByteRoundTrip(s, 6, a[2]);
    ByteRoundTrip(s, 9, a[3]);
    ByteRoundTrip(s, 12, a[4]);
    ByteRoundTrip(s, 15, a[5]);
    var read := ReadBytes(s, [0, 3, 6, 9, 12, 15]);
    assert read.value == a;
  }

  // ---- rules ----

  datatype Match = Match(address: Mac, mask: Mac)

  const ANY := Match(ZERO, ZERO)

  datatype MacRule = MacRule(action: string, source: Match, destination: Match, etherType: Option<Int64>, log: bool)

  datatype MacEntry = MacEntry(id: Int64, rule: MacRule)

  const LAST_ID := 65000
  const FIRST_ETHERTYPE := 0x600
  const LAST_ETHERTYPE := 0xffff

  predicate LegalMatch(m: Match) { m.mask == ZERO ==> m.address == ZERO }

  predicate LegalRule(r: MacRule) {
    && (r.action == "permit" || r.action == "deny")
    && (r.etherType.Some? ==> FIRST_ETHERTYPE <= r.etherType.value <= LAST_ETHERTYPE)
    && LegalMatch(r.source) && LegalMatch(r.destination)
  }

  function ParseMatch(address: string, mask: string): (m: Option<Match>)
    ensures m.Some? ==> LegalMatch(m.value)
  {
    if address == "any" && mask == "any" then Some(ANY)
    else
      var a, k := ParseMAC(address), ParseMAC(mask);
      if a.None? || k.None? then None
      else if k.value == ZERO then Some(ANY)
      else Some(Match(a.value, k.value))
  }

  lemma {:induction false} MatchRoundTrip(m: Match)
    requires LegalMatch(m)
    ensures ParseMatch(WriteMAC(m.address), WriteMAC(m.mask)) == Some(m)
  {
    hide ParseMAC, WriteMAC;
    MacRoundTrip(m.address);
    MacRoundTrip(m.mask);
  }

  // ---- REST entries ----

  datatype RestEntry = RestEntry(
    id: Int64, configId: Option<Int64>,
    source: string, sourceMask: string, destination: string, destinationMask: string,
    etherType: Option<Int64>, forward: string, log: string)

  const PREFIX := "openconfig-acl:"

  /** An identity without its module's name. */
  function Unqualified(s: string): (r: string) { TrimPrefix(s, PREFIX) }

  function Decode(e: RestEntry): (r: Option<MacRule>)
    ensures r.Some? ==> 1 <= e.id <= LAST_ID && e.configId == Some(e.id)
  {
    var forward, log := Unqualified(e.forward), Unqualified(e.log);
    if e.id < 1 || e.id > LAST_ID || e.configId != Some(e.id) then None
    else if forward != "ACCEPT" && forward != "DROP" then None
    else if log != "" && log != "LOG_NONE" && log != "LOG_SYSLOG" then None
    else
      var source, destination := ParseMatch(e.source, e.sourceMask), ParseMatch(e.destination, e.destinationMask);
      if source.None? || destination.None? then None
      else
        var action := if forward == "ACCEPT" then "permit" else "deny";
        Some(MacRule(action, source.value, destination.value, e.etherType, log == "LOG_SYSLOG"))
  }

  function Encode(e: MacEntry): (r: RestEntry) {
    RestEntry(e.id, Some(e.id),
              WriteMAC(e.rule.source.address), WriteMAC(e.rule.source.mask),
              WriteMAC(e.rule.destination.address), WriteMAC(e.rule.destination.mask),
              e.rule.etherType,
              if e.rule.action == "deny" then "DROP" else "ACCEPT",
              if e.rule.log then "openconfig-acl:LOG_SYSLOG" else "")
  }

  /** The decoder recovers every legal rule with an ID in range from its encoding. */
  lemma {:induction false} CodecRoundTrip(e: MacEntry)
    requires LegalRule(e.rule) && 1 <= e.id <= LAST_ID
    ensures Decode(Encode(e)) == Some(e.rule)
  {
    hide ParseMatch, WriteMAC;
    MatchRoundTrip(e.rule.source);
    MatchRoundTrip(e.rule.destination);
    var syslog := "openconfig-acl:LOG_SYSLOG";
    assert syslog == PREFIX + "LOG_SYSLOG";
    assert syslog[|PREFIX|..] == "LOG_SYSLOG";
  }
}
