/** What a native gateway-route line stands for: which destinations it covers, by the bits of
    its mask, and that the two spellings of a prefix are interchangeable. */
module RouteSpelling {
  import opened Prelude
  import opened Sorting
  import opened Decimal
  import opened Prefixes
  import opened Bits
  import opened Native
  import opened Route

  const FIRST_MULTICAST := 0xe000_0000
  const LAST_MULTICAST := 0xefff_ffff

  predicate Unicast(a: Address) { a < FIRST_MULTICAST || a > LAST_MULTICAST }

  lemma {:induction false} UnicastIs(a: Address)
    ensures Unicast(a) <==> !Multicast(a)
  {
  }

  /** A next hop is a specified unicast address. */
  predicate NextHop(text: string) {
    ParseIPv4(text).Some? && ParseIPv4(text).value != 0 && Unicast(ParseIPv4(text).value)
  }

  /** A line written with a mask: refused exactly for an unreadable, noncontiguous or multicast
      destination, host bits, or a bad next hop; otherwise it covers exactly the addresses that
      agree with its own on the bits of the mask, and everything else is taken over. */
  lemma {:induction false} MaskedRoute(p: Parsed)
    requires p.valid && !p.route.ignored && p.route.mask != ""
    ensures var address, mask := ParseIPv4(p.route.prefix), ParseIPv4(p.route.mask);
            var reading := ReadSyntax(p);
            if address.Some? && mask.Some? && Contiguous(mask.value) && NoHostBits(address.value, mask.value)
               && Unicast(address.value) && NextHop(p.route.gateway)
            then
              && reading.Present? && Some(reading.route.id.nextHop) == ParseIPv4(p.route.gateway)
              && reading.route.distance == p.route.distance && reading.route.options == p.route.options
              && reading.route.id.prefix.base == address.value && reading.route.id.prefix.bits <= 32
              && forall x: Address :: Contains(reading.route.id.prefix, x) <==> Agree(x, address.value, mask.value)
            else reading.Malformed?
  {
    hide ParseIPv4, Contiguous, NoHostBits, Agree, Multicast, Unicast, Contains, Masked, MaskBits, Leading;
    var address, mask := ParseIPv4(p.route.prefix), ParseIPv4(p.route.mask);
    if ParseIPv4(p.route.gateway).Some? { UnicastIs(ParseIPv4(p.route.gateway).value); }
    if address.Some? && mask.Some? {
      UnicastIs(address.value);
      MaskLength(mask.value);
      var bits := MaskBits(mask.value, 32);
      if bits.Some? {
        MaskedBits(address.value, bits.value);
        forall x: Address
          ensures Contains(Prefix(address.value, bits.value), x) <==> Agree(x, address.value, mask.value)
        {
          AgreeBlock(x, address.value, bits.value);
        }
      }
    }
  }

  // ---- the two spellings ----

  lemma {:induction false} LeadingFits(n: nat)
    requires n <= 32
    ensures Leading(n) < 0x1_0000_0000
  {
    Pow32();
  }

  /** The line's prefix written as an address and a mask instead. */
  function WithMask(p: Parsed): (q: Parsed)
    requires ParsePrefix(p.route.prefix).Some?
  {
    var prefix := ParsePrefix(p.route.prefix).value;
    LeadingFits(prefix.bits);
    p.(route := p.route.(prefix := WriteIPv4(prefix.base), mask := WriteIPv4(Leading(prefix.bits))))
  }

  /** `length` and mask mean the same line. */
  lemma {:induction false} SameReading(p: Parsed)
    requires p.route.mask == "" && ParsePrefix(p.route.prefix).Some?
    ensures ReadSyntax(WithMask(p)) == ReadSyntax(p)
  {
    hide ParseIPv4, WriteIPv4, ParsePrefix, Multicast, Masked, MaskBits, Leading;
    var prefix := ParsePrefix(p.route.prefix).value;
    LeadingFits(prefix.bits);
    var mask := Leading(prefix.bits);
    ParseWriteIPv4(prefix.base);
    ParseWriteIPv4(mask);
    WrittenSome(mask);
    LeadingLength(prefix.bits);
  }

  lemma {:induction false} WrittenSome(a: Address)
    ensures WriteIPv4(a) != ""
  {
    hide Write;
  }

  lemma {:induction false} LeadingLength(n: nat)
    requires n <= 32
    ensures Leading(n) < Pow2(32) && MaskBits(Leading(n), 32) == Some(n)
  {
    hide MaskBits, Pow2;
    LeadingFits(n);
    Pow32();
    MaskBitsMeaning(Leading(n), 32, n);
  }

  /** The same line, or one spelled the other way. */
  ghost predicate Respelled(c: Command, d: Command) {
    && c.parent == d.parent
    && (|| (c.parsed == d.parsed && c.text == d.text)
        || SpelledBothWays(c.parsed, d.parsed) || SpelledBothWays(d.parsed, c.parsed))
  }

  ghost predicate SpelledBothWays(p: Parsed, q: Parsed) {
    p.route.mask == "" && ParsePrefix(p.route.prefix).Some? && q == WithMask(p)
  }

  ghost predicate AllRespelled(cs: seq<Command>, ds: seq<Command>) {
    |cs| == |ds| && forall i :: 0 <= i < |cs| ==> Respelled(cs[i], ds[i])
  }

  lemma {:induction false} RespelledRead(c: Command, d: Command)
    requires Respelled(c, d)
    ensures Read(c) == Read(d) && RouteLine(c) == RouteLine(d)
  {
    hide ReadSyntax, WriteIPv4, ParsePrefix, Leading;
    if SpelledBothWays(c.parsed, d.parsed) { SameReading(c.parsed); }
    if SpelledBothWays(d.parsed, c.parsed) { SameReading(d.parsed); }
  }

  /** Respelling any lines changes neither whether the routes can be read nor what they are. */
  lemma {:induction false} RespelledRoutes(cs: seq<Command>, ds: seq<Command>)
    requires AllRespelled(cs, ds)
    ensures RoutesOk(cs) <==> RoutesOk(ds)
    ensures Routes(cs, |cs|) == Routes(ds, |ds|)
  {
    hide Read, Respelled;
    forall i | 0 <= i < |cs| ensures Read(cs[i]) == Read(ds[i]) { RespelledRead(cs[i], ds[i]); }
    SameRoutes(cs, ds, |cs|);
  }

  lemma {:induction false} SameRoutes(cs: seq<Command>, ds: seq<Command>, n: nat)
    requires n <= |cs| == |ds| && forall i :: 0 <= i < |cs| ==> Read(cs[i]) == Read(ds[i])
    ensures Routes(cs, n) == Routes(ds, n)
  {
    hide Read;
    if n > 0 { SameRoutes(cs, ds, n - 1); }
  }

  /** Only lines for the selected route have another text. */
  ghost predicate TextKept(cs: seq<Command>, ds: seq<Command>, id: Gateway) {
    forall i :: 0 <= i < |cs| && i < |ds| && cs[i].text != ds[i].text ==> Selected(cs[i], id)
  }

  lemma {:induction false} SameKept(cs: seq<Command>, ds: seq<Command>, id: Gateway, n: nat)
    requires AllRespelled(cs, ds) && TextKept(cs, ds, id) && n <= |cs|
    ensures OtherTexts(cs, n) == OtherTexts(ds, n) && RouteTexts(cs, n, id) == RouteTexts(ds, n, id)
  {
    hide ReadSyntax, RouteLine, Respelled;
    if n > 0 {
      SameKept(cs, ds, id, n - 1);
      RespelledRead(cs[n - 1], ds[n - 1]);
      OnlyRouteLines(cs[n - 1]);
    }
  }

  lemma {:induction false} OnlyRouteLines(c: Command)
    ensures !RouteLine(c) ==> Read(c).Absent?
  {
  }

  /** Respelling the selected route's line in either document does not change the guard's
      answer. */
  lemma {:induction false} RespelledUpdate(before: seq<Command>, after: seq<Command>, before': seq<Command>,
        after': seq<Command>, id: Gateway)
    requires AllRespelled(before, before') && TextKept(before, before', id)
    requires AllRespelled(after, after') && TextKept(after, after', id)
    ensures RouteUpdateAccepted(before, after, id) <==> RouteUpdateAccepted(before', after', id)
  {
    hide Sort, OtherTexts, RouteTexts, SelectedOk, AllRespelled, TextKept;
    SameSelected(before, before', id);
    SameSelected(after, after', id);
    SameKeptAll(before, before', id);
    SameKeptAll(after, after', id);
  }

  lemma {:induction false} SameKeptAll(cs: seq<Command>, ds: seq<Command>, id: Gateway)
    requires AllRespelled(cs, ds) && TextKept(cs, ds, id)
    ensures RouteKept(cs, id) == RouteKept(ds, id)
  {
    hide OtherTexts, RouteTexts, Sort;
    SameKept(cs, ds, id, |cs|);
  }

  lemma {:induction false} SameSelected(cs: seq<Command>, ds: seq<Command>, id: Gateway)
    requires AllRespelled(cs, ds)
    ensures SelectedOk(cs, |cs|, id) <==> SelectedOk(ds, |ds|, id)
  {
    hide Read, Respelled;
    forall i | 0 <= i < |cs| ensures Read(cs[i]) == Read(ds[i]) { RespelledRead(cs[i], ds[i]); }
  }
}
