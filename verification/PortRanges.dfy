/** Resolving native port ranges against an interface inventory, by counting. */
module PortRanges {
  import opened Prelude
  import opened Native
  import opened EthernetPort

  type Inventory = map<string, PortId>

  /** Every name stands for its own port. */
  ghost predicate Injective(ports: Inventory) {
    forall x, y :: x in ports && y in ports && ports[x] == ports[y] ==> x == y
  }

  predicate Ordered(span: PortRange) {
    span.first.stack == span.last.stack && span.first.slot == span.last.slot && span.first.port <= span.last.port
  }

  predicate Within(span: PortRange, id: PortId) {
    id.stack == span.first.stack && id.slot == span.first.slot && span.first.port <= id.port <= span.last.port
  }

  function Covered(span: PortRange, ports: Inventory): (r: set<string>) {
    set x | x in ports && Within(span, ports[x])
  }

  /** The inventory has the port numbered q in the span's slot. */
  ghost predicate Has(span: PortRange, ports: Inventory, q: nat) {
    PortId(span.first.stack, span.first.slot, q) in ports.Values
  }

  /** Every port number of the span is in the inventory. */
  ghost predicate Complete(span: PortRange, ports: Inventory) {
    forall q :: span.first.port <= q <= span.last.port ==> Has(span, ports, q)
  }

  /** The grammar's port numbers: positive 64-bit values. */
  ghost predicate Wide(span: PortRange) { InRange(span.first) && InRange(span.last) }

  // ---- counting is completeness ----

  function Interval(first: nat, last: nat): (r: set<nat>)
    ensures forall q :: q in r <==> first <= q <= last
    ensures first <= last ==> |r| == last - first + 1
    decreases last + 1 - first
  {
    if first > last then {} else {first} + Interval(first + 1, last)
  }

  function Numbers(names: set<string>, ports: Inventory): (r: set<nat>)
    requires names <= ports.Keys
  {
    set x | x in names :: ports[x].port
  }

  lemma {:induction false} NumbersSize(names: set<string>, ports: Inventory)
    requires names <= ports.Keys
    requires forall x, y :: x in names && y in names && ports[x].port == ports[y].port ==> x == y
    ensures |Numbers(names, ports)| == |names|
    decreases |names|
  {
    if names != {} {
      var x :| x in names;
      var rest := names - {x};
      NumbersSize(rest, ports);
      assert Numbers(names, ports) == Numbers(rest, ports) + {ports[x].port};
    }
  }

  lemma {:induction false} SubsetSize<T>(a: set<T>, b: set<T>)
    requires a <= b
    ensures |a| <= |b| && (|a| == |b| ==> a == b)
  {
    var rest := b - a;
    assert b == a + rest;
  }

  /** The pigeonhole step: as many covered ports as numbers in the span means all of them. */
  lemma {:induction false} CountIsComplete(span: PortRange, ports: Inventory)
    requires Injective(ports) && Ordered(span)
    ensures |Covered(span, ports)| <= span.last.port - span.first.port + 1
    ensures |Covered(span, ports)| == span.last.port - span.first.port + 1 <==> Complete(span, ports)
  {
    var names := Covered(span, ports);
    var numbers, all := Numbers(names, ports), Interval(span.first.port, span.last.port);
    NumbersSize(names, ports);
    SubsetSize(numbers, all);
    if numbers == all {
      forall q | span.first.port <= q <= span.last.port
        ensures Has(span, ports, q)
      {
        assert q in numbers;
        var x :| x in names && ports[x].port == q;
        assert ports[x] == PortId(span.first.stack, span.first.slot, q);
      }
    }
    if Complete(span, ports) {
      forall q | q in all ensures q in numbers {
        assert Has(span, ports, q);
        var x :| x in ports && ports[x] == PortId(span.first.stack, span.first.slot, q);
        assert x in names;
      }
    }
  }

  // ---- the resolver ----

  /** How often each name is listed when every span lists what it covers. */
  function Coverage(spans: seq<PortRange>, ports: Inventory): (r: multiset<string>) {
    if spans == [] then multiset{}
    else Coverage(spans[..|spans| - 1], ports) + multiset(Covered(spans[|spans| - 1], ports))
  }

  ghost predicate Resolvable(c: Parsed, ports: Inventory) {
    c.allPorts || forall i :: 0 <= i < |c.portRanges| ==> Ordered(c.portRanges[i]) && Complete(c.portRanges[i], ports)
  }

  function Listing(c: Parsed, ports: Inventory): (r: multiset<string>) {
    if c.allPorts then multiset(ports.Keys) else Coverage(c.portRanges, ports)
  }

  /** Appends, in any order, the inventory names the span covers. */
  method AppendCovered(names: seq<string>, span: PortRange, ports: Inventory) returns (r: seq<string>)
    ensures multiset(r) == multiset(names) + multiset(Covered(span, ports))
    ensures |r| == |names| + |Covered(span, ports)|
  {
    r := names;
    var todo := ports.Keys;
    ghost var done: set<string> := {};
    while todo != {}
      invariant todo <= ports.Keys && done == Covered(span, ports) - todo
      invariant multiset(r) == multiset(names) + multiset(done) && |r| == |names| + |done|
      decreases |todo|
    {
      var name :| name in todo;
      todo := todo - {name};
      if !Within(span, ports[name]) {
        continue;
      }
      r := r + [name];
      assert multiset(done + {name}) == multiset(done) + multiset{name};
      done := done + {name};
    }
    assert done == Covered(span, ports);
  }

  method AppendAll(ports: Inventory) returns (r: seq<string>)
    ensures multiset(r) == multiset(ports.Keys)
  {
    r := [];
    var todo := ports.Keys;
    while todo != {}
      invariant todo <= ports.Keys && multiset(r) == multiset(ports.Keys - todo)
      decreases |todo|
    {
      var name :| name in todo;
      assert multiset(ports.Keys - (todo - {name})) == multiset(ports.Keys - todo) + multiset{name};
      todo := todo - {name};
      r := r + [name];
    }
  }

  /** The unsigned 64-bit count test of one ordered span is its completeness. */
  lemma {:induction false} CountTest(span: PortRange, ports: Inventory)
    requires Injective(ports) && Ordered(span) && Wide(span)
    ensures |Covered(span, ports)| % LIMIT == (span.last.port - span.first.port + 1) % LIMIT <==> Complete(span, ports)
  {
    hide Covered, Complete, Injective;
    CountIsComplete(span, ports);
  }

  lemma {:induction false} NoCoverage(spans: seq<PortRange>, ports: Inventory)
    requires spans == []
    ensures Coverage(spans, ports) == multiset{}
  {
  }

  lemma {:induction false} CoverageStep(spans: seq<PortRange>, i: nat, ports: Inventory)
    requires i < |spans|
    ensures Coverage(spans[..i + 1], ports) == Coverage(spans[..i], ports) + multiset(Covered(spans[i], ports))
  {
    hide Covered;
    assert spans[..i + 1][..i] == spans[..i];
  }

  /** Succeeds exactly when every span is ordered inside one slot and all its ports are in
      the inventory; lists each span's ports once. The unsigned count never wraps. */
  method ResolvePorts(c: Parsed, ports: Inventory) returns (r: Option<seq<string>>)
    requires Injective(ports) && forall i :: 0 <= i < |c.portRanges| ==> Wide(c.portRanges[i])
    ensures r.Some? <==> Resolvable(c, ports)
    ensures r.Some? ==> multiset(r.value) == Listing(c, ports)
  {
    hide Covered, Coverage, Complete, Injective, Wide, InRange;
    if c.allPorts {
      var all := AppendAll(ports);
      return Some(all);
    }
    var names: seq<string> := [];
    NoCoverage(c.portRanges[..0], ports);
    for i := 0 to |c.portRanges|
      invariant multiset(names) == Coverage(c.portRanges[..i], ports)
      invariant forall j :: 0 <= j < i ==> Ordered(c.portRanges[j]) && Complete(c.portRanges[j], ports)
    {
      var span := c.portRanges[i];
      if span.first.stack != span.last.stack || span.first.slot != span.last.slot || span.first.port > span.last.port {
        return None;
      }
      var start := |names|;
      names := AppendCovered(names, span, ports);
      CountTest(span, ports);
      if (|names| - start) % LIMIT != (span.last.port - span.first.port + 1) % LIMIT {
        return None;
      }
      CoverageStep(c.portRanges, i, ports);
    }
    assert c.portRanges[..|c.portRanges|] == c.portRanges;
    return Some(names);
  }

  lemma {:induction false} CoverageAppend(a: seq<PortRange>, b: seq<PortRange>, ports: Inventory)
    ensures Coverage(a + b, ports) == Coverage(a, ports) + Coverage(b, ports)
  {
    hide Covered;
    if b == [] {
      assert a + b == a;
    } else {
      var n := |b| - 1;
      assert (a + b)[..|a| + n] == a + b[..n];
      CoverageAppend(a, b[..n], ports);
    }
  }

  /** The ports listed are exactly those in the union of the spans. */
  lemma {:induction false} CoverageUnion(spans: seq<PortRange>, ports: Inventory, x: string)
    ensures x in Coverage(spans, ports) <==>
            x in ports && exists i :: 0 <= i < |spans| && Within(spans[i], ports[x])
  {
    if spans != [] {
      var n := |spans| - 1;
      CoverageUnion(spans[..n], ports, x);
      if x in ports && exists i :: 0 <= i < |spans| && Within(spans[i], ports[x]) {
        var i :| 0 <= i < |spans| && Within(spans[i], ports[x]);
        if i < n { assert Within(spans[..n][i], ports[x]); }
      }
    }
  }
}
