/** Default-VRF gateway routes and the guard for one of them. */
module Route {
  import opened Prelude
  import opened Sorting
  import opened Text
  import opened Decimal
  import opened Prefixes
  import opened Native
  import opened Tree
  import opened Scopes

  datatype Gateway = Gateway(prefix: Prefix, nextHop: Address)

  datatype IPv4Route = IPv4Route(id: Gateway, distance: int, options: bool)

  datatype Reading = Absent | Malformed | Present(route: IPv4Route)

  predicate Multicast(a: Address) { a / 0x1000_0000 == 0xe }

  lemma {:induction false} MaskFits(mask: Address)
    ensures mask < Pow2(32)
  {
    Pow32();
  }

  function NetmaskBits(mask: Address): (r: Option<nat>)
    ensures r.Some? ==> r.value <= 32
  {
    MaskFits(mask);
    MaskBits(mask, 32)
  }

  /** A prefix in slash notation, or an address with a contiguous mask; canonical and unicast. */
  function RoutePrefix(raw: string, mask: string): (r: Option<Prefix>)
    ensures r.Some? ==> r.value.bits <= 32
  {
    var prefix :=
      if mask == "" then ParsePrefix(raw)
      else
        var address, netmask := ParseIPv4(raw), ParseIPv4(mask);
        if address.None? || netmask.None? then None
        else
          var bits := NetmaskBits(netmask.value);
          if bits.None? then None else Some(Prefix(address.value, bits.value));
    if prefix.None? || prefix.value != Masked(prefix.value) || Multicast(prefix.value.base) then None else prefix
  }

  function ReadSyntax(p: Parsed): (r: Reading) {
    if !p.valid then Malformed
    else if p.route.ignored then Absent
    else
      var prefix, gateway := RoutePrefix(p.route.prefix, p.route.mask), ParseIPv4(p.route.gateway);
      if prefix.None? || gateway.None? || gateway.value == 0 || Multicast(gateway.value) then Malformed
      else Present(IPv4Route(Gateway(prefix.value, gateway.value), p.route.distance, p.route.options))
  }

  predicate RouteLine(c: Command) { c.parent == -1 && c.parsed.kind.StaticRoute? }

  function Read(c: Command): (r: Reading) { if RouteLine(c) then ReadSyntax(c.parsed) else Absent }

  /** One command's route, as both the extractor and the guard read it. */
  method ReadRoute(c: Command) returns (r: Reading)
    ensures r == Read(c)
  {
    hide RoutePrefix;
    if c.parent != -1 || !c.parsed.kind.StaticRoute? {
      return Absent;
    }
    if !c.parsed.valid {
      return Malformed;
    }
    var raw := c.parsed.route;
    if raw.ignored {
      return Absent;
    }
    var prefix := RoutePrefix(raw.prefix, raw.mask);
    if prefix.None? {
      return Malformed;
    }
    var gateway := ParseIPv4(raw.gateway);
    if gateway.None? || gateway.value == 0 || Multicast(gateway.value) {
      return Malformed;
    }
    return Present(IPv4Route(Gateway(prefix.value, gateway.value), raw.distance, raw.options));
  }

  /** Every gateway route of the first `n` commands, in document order. */
  function Routes(cs: seq<Command>, n: nat): (r: seq<IPv4Route>)
    requires n <= |cs|
  {
    if n == 0 then []
    else Routes(cs, n - 1) + if Read(cs[n - 1]).Present? then [Read(cs[n - 1]).route] else []
  }

  function Ids(rs: seq<IPv4Route>): (r: seq<Gateway>)
    ensures |r| == |rs|
  {
    seq(|rs|, i requires 0 <= i < |rs| => rs[i].id)
  }

  ghost predicate AllReadable(cs: seq<Command>) {
    forall i :: 0 <= i < |cs| ==> !Read(cs[i]).Malformed?
  }

  ghost predicate RoutesOk(cs: seq<Command>) { AllReadable(cs) && Distinct(Ids(Routes(cs, |cs|))) }

  lemma {:induction false} RoutesPrefix(cs: seq<Command>, i: nat, n: nat)
    requires i <= n <= |cs|
    ensures Routes(cs, i) <= Routes(cs, n)
    decreases n
  {
    hide Read;
    if i < n { RoutesPrefix(cs, i, n - 1); }
  }

  method IPv4Routes(cs: seq<Command>) returns (r: Option<seq<IPv4Route>>)
    ensures r.Some? <==> RoutesOk(cs)
    ensures r.Some? ==> r.value == Routes(cs, |cs|)
  {
    hide Read;
    var routes: seq<IPv4Route> := [];
    var seen: set<Gateway> := {};
    for i := 0 to |cs|
      invariant routes == Routes(cs, i) && Distinct(Ids(routes))
      invariant seen == set x | x in Ids(routes)
      invariant forall j :: 0 <= j < i ==> !Read(cs[j]).Malformed?
    {
      var current := ReadRoute(cs[i]);
      if current.Malformed? {
        return None;
      }
      if current.Absent? {
        continue;
      }
      if current.route.id in seen {
        RepeatedId(cs, i, current.route);
        return None;
      }
      assert Ids(routes + [current.route]) == Ids(routes) + [current.route.id];
      seen := seen + {current.route.id};
      routes := routes + [current.route];
    }
    return Some(routes);
  }

  lemma {:induction false} RepeatedId(cs: seq<Command>, i: nat, route: IPv4Route)
    requires i < |cs| && Read(cs[i]) == Present(route) && route.id in Ids(Routes(cs, i))
    ensures !RoutesOk(cs)
  {
    hide Read;
    var ids, all := Ids(Routes(cs, i)), Ids(Routes(cs, |cs|));
    var k :| 0 <= k < |ids| && ids[k] == route.id;
    RoutesPrefix(cs, i + 1, |cs|);
    assert Routes(cs, |cs|)[|ids|] == route;
    assert all[k] == all[|ids|];
  }

  // ---- the guard ----

  predicate Selected(c: Command, id: Gateway) { Read(c).Present? && Read(c).route.id == id }

  /** The selected route occurs at most once and carries no options of its own. */
  ghost predicate SelectedOk(cs: seq<Command>, n: nat, id: Gateway)
    requires n <= |cs|
  {
    && (forall i :: 0 <= i < n ==> !Read(cs[i]).Malformed?)
    && (forall i :: 0 <= i < n && Selected(cs[i], id) ==> !Read(cs[i]).route.options)
    && (forall i, j :: 0 <= i < j < n ==> !(Selected(cs[i], id) && Selected(cs[j], id)))
  }

  function OtherTexts(cs: seq<Command>, n: nat): (r: seq<string>)
    requires n <= |cs|
  {
    if n == 0 then [] else OtherTexts(cs, n - 1) + if RouteLine(cs[n - 1]) then [] else [cs[n - 1].text]
  }

  function RouteTexts(cs: seq<Command>, n: nat, id: Gateway): (r: seq<string>)
    requires n <= |cs|
  {
    if n == 0 then []
    else RouteTexts(cs, n - 1, id) + if RouteLine(cs[n - 1]) && !Selected(cs[n - 1], id) then [cs[n - 1].text] else []
  }

  function RouteKept(cs: seq<Command>, id: Gateway): seq<string> {
    OtherTexts(cs, |cs|) + Sort(RouteTexts(cs, |cs|, id), StringLeq)
  }

  ghost predicate RouteUpdateAccepted(before: seq<Command>, after: seq<Command>, id: Gateway) {
    && SelectedOk(before, |before|, id) && SelectedOk(after, |after|, id)
    && RouteKept(before, id) == RouteKept(after, id)
  }

  method RouteRemaining(cs: seq<Command>, id: Gateway) returns (r: Option<seq<string>>)
    ensures r.Some? <==> SelectedOk(cs, |cs|, id)
    ensures r.Some? ==> r.value == RouteKept(cs, id)
  {
    hide ReadSyntax, Sort;
    var remaining: seq<string>, routes: seq<string> := [], [];
    var found := false;
    for i := 0 to |cs|
      invariant SelectedOk(cs, i, id)
      invariant found <==> exists j :: 0 <= j < i && Selected(cs[j], id)
      invariant remaining == OtherTexts(cs, i) && routes == RouteTexts(cs, i, id)
    {
      var current := ReadRoute(cs[i]);
      if current.Malformed? {
        return None;
      }
      if current.Present? && current.route.id == id {
        assert Selected(cs[i], id);
        if found || current.route.options {
          return None;
        }
        found := true;
        continue;
      }
      if cs[i].parent == -1 && cs[i].parsed.kind.StaticRoute? {
        routes := routes + [cs[i].text];
        continue;
      }
      remaining := remaining + [cs[i].text];
    }
    return Some(remaining + Sort(routes, StringLeq));
  }

  method CheckIPv4RouteUpdate(before: seq<Command>, after: seq<Command>, id: Gateway) returns (accepted: bool)
    ensures accepted <==> RouteUpdateAccepted(before, after, id)
  {
    hide SelectedOk, RouteKept;
    var previous := RouteRemaining(before, id);
    if previous.None? {
      return false;
    }
    var current := RouteRemaining(after, id);
    return current.Some? && previous.value == current.value;
  }

  // ---- what acceptance means ----

  lemma {:induction false} TextEnd(g: Grammar, d: Doc, i: nat)
    requires Closed(g, d) && i < |d.commands|
    ensures d.commands[i].text == "end" <==> i == |d.commands| - 1
  {
    hide Scoped, Legible;
    ClosedSound(g, d);
  }

  lemma {:induction false} OtherTextsEnd(g: Grammar, d: Doc, n: nat)
    requires Closed(g, d) && EndUnknown(g) && n <= |d.commands|
    ensures n < |d.commands| ==> "end" !in OtherTexts(d.commands, n)
    ensures n == |d.commands| ==>
              var r := OtherTexts(d.commands, n);
              r != [] && r[|r| - 1] == "end" && "end" !in r[..|r| - 1]
  {
    hide Closed, RouteLine;
    if n == 0 {
      EndRetained(g, d);
    } else {
      OtherTextsEnd(g, d, n - 1);
      TextEnd(g, d, n - 1);
      if n == |d.commands| {
        EndRetained(g, d);
        KindNotRoute(d.commands[n - 1]);
        var r := OtherTexts(d.commands, n);
        assert r[..|r| - 1] == OtherTexts(d.commands, n - 1);
      }
    }
  }

  lemma {:induction false} KindNotRoute(c: Command)
    requires c.parsed.kind.Unknown?
    ensures !RouteLine(c)
  {
  }

  /** The comparison tolerates exactly a reordering of the other route lines. */
  lemma {:induction false} RouteUpdateExact(g: Grammar, d1: Doc, d2: Doc, id: Gateway)
    requires Closed(g, d1) && Closed(g, d2) && EndUnknown(g)
    ensures var c1, c2 := d1.commands, d2.commands;
            RouteKept(c1, id) == RouteKept(c2, id)
            <==> && OtherTexts(c1, |c1|) == OtherTexts(c2, |c2|)
                 && multiset(RouteTexts(c1, |c1|, id)) == multiset(RouteTexts(c2, |c2|, id))
  {
    hide Closed, OtherTexts, RouteTexts, Sort, StringLeq, TotalOrder;
    var c1, c2 := d1.commands, d2.commands;
    OtherTextsEnd(g, d1, |c1|);
    OtherTextsEnd(g, d2, |c2|);
    var a1, a2 := RouteTexts(c1, |c1|, id), RouteTexts(c2, |c2|, id);
    SplitAtEnd(OtherTexts(c1, |c1|), Sort(a1, StringLeq), OtherTexts(c2, |c2|), Sort(a2, StringLeq));
    StringOrder();
    SortCanonical(a1, a2, StringLeq);
  }

  /** The route a route line's text stands for. */
  function TextRoute(g: Grammar, text: string): (r: seq<IPv4Route>) {
    var reading := ReadSyntax(g(TrimSpace(Header(text))));
    if reading.Present? then [reading.route] else []
  }

  function TextRoutes(g: Grammar, texts: seq<string>): (r: seq<IPv4Route>) {
    if texts == [] then []
    else TextRoutes(g, texts[..|texts| - 1]) + TextRoute(g, texts[|texts| - 1])
  }

  lemma {:induction false} TextRoutesSnoc(g: Grammar, texts: seq<string>, t: string)
    ensures TextRoutes(g, texts + [t]) == TextRoutes(g, texts) + TextRoute(g, t)
  {
    assert (texts + [t])[..|texts|] == texts;
  }

  lemma {:induction false} TextRoutesRemove(g: Grammar, texts: seq<string>, i: nat)
    requires i < |texts|
    ensures multiset(TextRoutes(g, texts)) ==
            multiset(TextRoutes(g, RemoveAt(texts, i))) + multiset(TextRoute(g, texts[i]))
  {
    hide TextRoute, TextRoutes;
    var n := |texts| - 1;
    TextRoutesSnoc(g, texts[..n], texts[n]);
    assert texts == texts[..n] + [texts[n]];
    if i == n {
      assert RemoveAt(texts, i) == texts[..n];
    } else {
      TextRoutesRemove(g, texts[..n], i);
      assert RemoveAt(texts, i) == RemoveAt(texts[..n], i) + [texts[n]];
      TextRoutesSnoc(g, RemoveAt(texts[..n], i), texts[n]);
    }
  }

  lemma {:induction false} TextRoutesMultiset(g: Grammar, a: seq<string>, b: seq<string>)
    requires multiset(a) == multiset(b)
    ensures multiset(TextRoutes(g, a)) == multiset(TextRoutes(g, b))
    decreases |a|
  {
    hide TextRoute, TextRoutes;
    assert |a| == |multiset(a)| == |b|;
    if a == [] {
      assert b == [];
    } else {
      var n := |a| - 1;
      assert a[n] in multiset(b);
      var i :| 0 <= i < |b| && b[i] == a[n];
      RemoveMultiset(a, n);
      RemoveMultiset(b, i);
      TextRoutesMultiset(g, RemoveAt(a, n), RemoveAt(b, i));
      TextRoutesRemove(g, a, n);
      TextRoutesRemove(g, b, i);
    }
  }

  function Unselected(id: Gateway): IPv4Route -> bool { (r: IPv4Route) => r.id != id }

  lemma {:induction false} OthersFromTexts(g: Grammar, d: Doc, n: nat, id: Gateway)
    requires Closed(g, d) && n <= |d.commands| && AllReadable(d.commands)
    ensures Filter(Routes(d.commands, n), Unselected(id)) == TextRoutes(g, RouteTexts(d.commands, n, id))
  {
    hide Closed, ReadSyntax, Filter, TextRoutes, Header, TrimSpace, AllReadable;
    if n > 0 {
      assert !Read(d.commands[n - 1]).Malformed? by { ReadableAt(d.commands, n - 1); }
      OthersFromTexts(g, d, n - 1, id);
      var c := d.commands[n - 1];
      CommandText(g, d, n - 1);
      TextRoutesSnoc(g, RouteTexts(d.commands, n - 1, id), c.text);
      var added := if Read(c).Present? then [Read(c).route] else [];
      FilterAppend(Routes(d.commands, n - 1), added, Unselected(id));
      var texts := RouteTexts(d.commands, n - 1, id);
      if Read(c).Present? {
        FilterOne(Read(c).route, Unselected(id));
        if Selected(c, id) {
          assert RouteTexts(d.commands, n, id) == texts;
        } else {
          assert RouteTexts(d.commands, n, id) == texts + [c.text] && TextRoute(g, c.text) == added;
        }
      } else {
        FilterNothing(id);
        assert RouteLine(c) ==> TextRoute(g, c.text) == [];
        assert !RouteLine(c) ==> RouteTexts(d.commands, n, id) == texts;
      }
    } else {
      FilterNothing(id);
      assert TextRoutes(g, []) == [] by { NoTextRoutes(g); }
    }
  }

  lemma {:induction false} NoTextRoutes(g: Grammar)
    ensures TextRoutes(g, []) == []
  {
  }

  lemma {:induction false} ReadableAt(cs: seq<Command>, i: nat)
    requires AllReadable(cs) && i < |cs|
    ensures !Read(cs[i]).Malformed?
  {
  }

  lemma {:induction false} FilterNothing(id: Gateway)
    ensures Filter([], Unselected(id)) == []
  {
  }

  lemma {:induction false} CommandText(g: Grammar, d: Doc, i: nat)
    requires Closed(g, d) && i < |d.commands|
    ensures d.commands[i].parsed == g(TrimSpace(Header(d.commands[i].text)))
  {
    hide Whole, Partial, NearestParent, Chain;
    ClosedSound(g, d);
    assert FromText(g, d.commands[i]);
  }

  // ---- extraction survives ----

  lemma {:induction false} IdsRemove(a: seq<IPv4Route>, i: nat)
    requires i < |a|
    ensures multiset(Ids(a)) == multiset(Ids(RemoveAt(a, i))) + multiset{a[i].id}
  {
    assert Ids(a) == Ids(a[..i]) + [a[i].id] + Ids(a[i + 1..]);
    assert Ids(RemoveAt(a, i)) == Ids(a[..i]) + Ids(a[i + 1..]);
  }

  lemma {:induction false} IdsMultiset(a: seq<IPv4Route>, b: seq<IPv4Route>)
    requires multiset(a) == multiset(b)
    ensures multiset(Ids(a)) == multiset(Ids(b))
    decreases |a|
  {
    hide Ids;
    assert |a| == |multiset(a)| == |b|;
    if a == [] {
      assert b == a;
    } else {
      var n := |a| - 1;
      assert a[n] in multiset(b);
      var i :| 0 <= i < |b| && b[i] == a[n];
      RemoveMultiset(a, n);
      RemoveMultiset(b, i);
      IdsMultiset(RemoveAt(a, n), RemoveAt(b, i));
      IdsRemove(a, n);
      IdsRemove(b, i);
    }
  }

  lemma {:induction false} IdsAppend(a: seq<IPv4Route>, b: seq<IPv4Route>)
    ensures Ids(a + b) == Ids(a) + Ids(b)
  {
  }

  lemma {:induction false} OtherIds(rs: seq<IPv4Route>, id: Gateway, x: Gateway)
    ensures multiset(Ids(Filter(rs, Unselected(id))))[x] == if x == id then 0 else multiset(Ids(rs))[x]
  {
    hide Filter;
    if rs == [] {
      FilterNothing(id);
    } else {
      var n := |rs| - 1;
      var front, last := rs[..n], [rs[n]];
      assert rs == front + last;
      OtherIds(front, id, x);
      FilterAppend(front, last, Unselected(id));
      FilterOne(rs[n], Unselected(id));
      IdsAppend(front, last);
      IdsAppend(Filter(front, Unselected(id)), Filter(last, Unselected(id)));
      assert Ids(last) == [rs[n].id] && Ids([]) == [];
    }
  }

  lemma {:induction false} SelectedOnce(cs: seq<Command>, n: nat, id: Gateway)
    requires n <= |cs| && SelectedOk(cs, n, id)
    ensures multiset(Ids(Routes(cs, n)))[id] == if exists j :: 0 <= j < n && Selected(cs[j], id) then 1 else 0
  {
    hide Read;
    if n > 0 {
      SelectedOnce(cs, n - 1, id);
      var added := if Read(cs[n - 1]).Present? then [Read(cs[n - 1]).route] else [];
      IdsAppend(Routes(cs, n - 1), added);
      assert added != [] ==> Ids(added) == [added[0].id];
    }
  }

  /** Besides the selected route, which occurs at most once, only the others decide whether
      extraction succeeds. */
  lemma {:induction false} OthersDecide(cs: seq<Command>, id: Gateway)
    requires SelectedOk(cs, |cs|, id)
    ensures RoutesOk(cs) <==> Distinct(Ids(Filter(Routes(cs, |cs|), Unselected(id))))
  {
    hide Read, Filter, Routes, Distinct;
    var routes := Routes(cs, |cs|);
    var others := Filter(routes, Unselected(id));
    SelectedOnce(cs, |cs|, id);
    DistinctCount(Ids(routes));
    DistinctCount(Ids(others));
    forall x { OtherIds(routes, id, x); }
    if Distinct(Ids(routes)) {
      forall x ensures multiset(Ids(others))[x] <= 1 { OtherIds(routes, id, x); }
    }
    if Distinct(Ids(others)) {
      forall x ensures multiset(Ids(routes))[x] <= 1 { OtherIds(routes, id, x); }
    }
  }

  /** An accepted route update leaves every other gateway route as it was, up to the order
      of lines, and every other line in place; and the routes can be extracted afterwards
      exactly when they could before. */
  lemma {:induction false} RouteUpdateSound(g: Grammar, d1: Doc, d2: Doc, id: Gateway)
    requires Closed(g, d1) && Closed(g, d2) && EndUnknown(g)
    requires RouteUpdateAccepted(d1.commands, d2.commands, id)
    ensures var c1, c2 := d1.commands, d2.commands;
            && multiset(Filter(Routes(c1, |c1|), Unselected(id))) == multiset(Filter(Routes(c2, |c2|), Unselected(id)))
            && OtherTexts(c1, |c1|) == OtherTexts(c2, |c2|)
            && (RoutesOk(c1) <==> RoutesOk(c2))
  {
    hide Closed, RouteKept, OtherTexts, RouteTexts, Routes, Filter, TextRoutes, Read, Selected, RoutesOk, Distinct;
    var c1, c2 := d1.commands, d2.commands;
    RouteUpdateExact(g, d1, d2, id);
    OthersFromTexts(g, d1, |c1|, id);
    OthersFromTexts(g, d2, |c2|, id);
    TextRoutesMultiset(g, RouteTexts(c1, |c1|, id), RouteTexts(c2, |c2|, id));
    var o1, o2 := Filter(Routes(c1, |c1|), Unselected(id)), Filter(Routes(c2, |c2|), Unselected(id));
    IdsMultiset(o1, o2);
    OthersDecide(c1, id);
    OthersDecide(c2, id);
    DistinctCount(Ids(o1));
    DistinctCount(Ids(o2));
  }
}
