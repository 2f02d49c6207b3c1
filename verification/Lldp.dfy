/** LLDP port directions: each direction of each port is set by at most one native line. */
module Lldp {
  import opened Prelude
  import opened Native
  import opened EthernetPort
  import opened PortRanges

  datatype Mode = Mode(receive: bool, transmit: bool)

  datatype Direction = Receive | Transmit

  function Get(m: Mode, d: Direction): bool { if d.Receive? then m.receive else m.transmit }

  predicate PortLine(c: Command) { c.parent == -1 && c.parsed.kind.LldpPorts? }

  /** A line without a direction sets both. */
  predicate Sets(line: Parsed, d: Direction) {
    if line.direction == "receive" then d.Receive?
    else if line.direction == "transmit" then d.Transmit?
    else true
  }

  function LinesOf(cs: seq<Command>, n: nat): (r: seq<Parsed>)
    requires n <= |cs|
  {
    if n == 0 then [] else LinesOf(cs, n - 1) + if PortLine(cs[n - 1]) then [cs[n - 1].parsed] else []
  }

  function OtherTexts(cs: seq<Command>, n: nat): (r: seq<string>)
    requires n <= |cs|
  {
    if n == 0 then [] else OtherTexts(cs, n - 1) + if PortLine(cs[n - 1]) then [] else [cs[n - 1].text]
  }

  // ---- the inventory ----

  const PREFIX: string := "ethernet "

  predicate Canonical(name: string) { PREFIX <= name && PortOf(name[|PREFIX|..]).Some? }

  ghost predicate InventoryOk(names: seq<string>) {
    (forall i :: 0 <= i < |names| ==> Canonical(names[i])) && Distinct(names)
  }

  function InventoryOf(names: seq<string>): (ports: Inventory)
    ensures ports.Keys == set x | x in names && Canonical(x)
    ensures forall x :: x in ports ==> Canonical(x) && PortOf(x[|PREFIX|..]) == Some(ports[x])
  {
    map x | x in names && Canonical(x) :: PortOf(x[|PREFIX|..]).value
  }

  lemma {:induction false} InventoryInjective(names: seq<string>)
    ensures Injective(InventoryOf(names))
  {
    hide PortOf, FormatPort;
    var ports := InventoryOf(names);
    forall x, y | x in ports && y in ports && ports[x] == ports[y] ensures x == y {
      PortNameUnique(x[|PREFIX|..]);
      PortNameUnique(y[|PREFIX|..]);
      assert x == PREFIX + x[|PREFIX|..] && y == PREFIX + y[|PREFIX|..];
    }
  }

  // ---- what the lines mean, without regard to their order ----

  /** How often lines with this negation set direction `d` of port `x`. */
  function Count(lines: seq<Parsed>, ports: Inventory, x: string, d: Direction, negated: bool): (n: nat) {
    if lines == [] then 0
    else
      var line := lines[|lines| - 1];
      Count(lines[..|lines| - 1], ports, x, d, negated) +
      if Sets(line, d) && line.negated == negated then Listing(line, ports)[x] else 0
  }

  function Times(lines: seq<Parsed>, ports: Inventory, x: string, d: Direction): (n: nat) {
    Count(lines, ports, x, d, true) + Count(lines, ports, x, d, false)
  }

  ghost predicate LineOk(line: Parsed, ports: Inventory) { line.valid && Resolvable(line, ports) }

  ghost predicate Unrepeated(lines: seq<Parsed>, ports: Inventory) {
    forall x, d :: Times(lines, ports, x, d) <= 1
  }

  ghost predicate LldpOk(lines: seq<Parsed>, ports: Inventory) {
    (forall i :: 0 <= i < |lines| ==> LineOk(lines[i], ports)) && Unrepeated(lines, ports)
  }

  /** A direction is off exactly when a negated line sets it. */
  function ModesOf(lines: seq<Parsed>, ports: Inventory): (modes: map<string, Mode>) {
    map x | x in ports :: Mode(Count(lines, ports, x, Receive, true) == 0, Count(lines, ports, x, Transmit, true) == 0)
  }

  // ---- bit masks ----

  function Code(d: Direction): bv8 { if d.Receive? then 1 else 2 }

  function MaskOf(line: Parsed): bv8 {
    if line.direction == "receive" then 1 else if line.direction == "transmit" then 2 else 3
  }

  predicate HasBit(m: bv8, d: Direction) { m & Code(d) != 0 }

  predicate Overlap(m: bv8, k: bv8) { m & k != 0 }

  function Combine(m: bv8, k: bv8): bv8 { m | k }

  function Seen(seen: map<string, bv8>, x: string): bv8 { if x in seen then seen[x] else 0 }

  predicate Marked(seen: map<string, bv8>, x: string, d: Direction) { HasBit(Seen(seen, x), d) }

  lemma {:induction false} MaskBits(m: bv8, k: bv8)
    requires k in {1, 2, 3}
    ensures m & k != 0 <==> (k & 1 != 0 && m & 1 != 0) || (k & 2 != 0 && m & 2 != 0)
    ensures (m | k) & 1 != 0 <==> m & 1 != 0 || k & 1 != 0
    ensures (m | k) & 2 != 0 <==> m & 2 != 0 || k & 2 != 0
  {
  }

  lemma {:induction false} MaskSets(line: Parsed, m: bv8)
    ensures Overlap(m, MaskOf(line)) <==> exists d :: Sets(line, d) && HasBit(m, d)
    ensures forall d :: HasBit(Combine(m, MaskOf(line)), d) <==> HasBit(m, d) || Sets(line, d)
  {
    MaskBits(m, MaskOf(line));
    assert MaskOf(line) & 1 != 0 <==> Sets(line, Receive);
    assert MaskOf(line) & 2 != 0 <==> Sets(line, Transmit);
    if m & 1 != 0 && Sets(line, Receive) { assert Sets(line, Receive) && HasBit(m, Receive); }
    if m & 2 != 0 && Sets(line, Transmit) { assert Sets(line, Transmit) && HasBit(m, Transmit); }
  }

  lemma {:induction false} MaskAlone(line: Parsed)
    ensures forall d :: HasBit(MaskOf(line), d) <==> Sets(line, d)
  {
  }

  method DirectionMask(line: Parsed) returns (mask: bv8)
    ensures mask == MaskOf(line)
  {
    mask := 3;
    match line.direction {
      case "receive" => mask := 1;
      case "transmit" => mask := 2;
      case _ =>
    }
  }

  // ---- one line's assignments ----

  function SetMode(mode: Mode, line: Parsed): (r: Mode)
    ensures forall d :: Get(r, d) == if Sets(line, d) then !line.negated else Get(mode, d)
  {
    Mode(if Sets(line, Receive) then !line.negated else mode.receive,
         if Sets(line, Transmit) then !line.negated else mode.transmit)
  }

  /** Some direction of the line is already marked for `x`. */
  ghost predicate Clashes(line: Parsed, seen: map<string, bv8>, x: string) {
    exists d :: Sets(line, d) && Marked(seen, x, d)
  }

  method Assign(line: Parsed, name: string, seen: map<string, bv8>, modes: map<string, Mode>)
    returns (seen': map<string, bv8>, modes': map<string, Mode>, ok: bool)
    requires name in modes
    ensures ok <==> !Clashes(line, seen, name)
    ensures ok ==> forall x, d :: Marked(seen', x, d) <==> Marked(seen, x, d) || (x == name && Sets(line, d))
    ensures ok ==> modes' == modes[name := SetMode(modes[name], line)]
  {
    hide MaskOf, Sets, HasBit, Overlap, Combine;
    seen', modes', ok := seen, modes, true;
    var mask := DirectionMask(line);
    MaskSets(line, Seen(seen, name));
    MaskAlone(line);
    if Overlap(Seen(seen, name), mask) {
      return seen', modes', false;
    }
    seen' := seen[name := Combine(Seen(seen, name), mask)];
    var mode := modes[name];
    if HasBit(mask, Receive) {
      mode := mode.(receive := !line.negated);
    }
    if HasBit(mask, Transmit) {
      mode := mode.(transmit := !line.negated);
    }
    modes' := modes[name := mode];
  }

  /** The first `k` resolved names are distinct and unmarked in every direction of the line. */
  ghost predicate Fresh(line: Parsed, seen: map<string, bv8>, names: seq<string>, k: nat)
    requires k <= |names|
  {
    forall i :: 0 <= i < k ==> !Clashes(line, seen, names[i]) && names[i] !in names[..i]
  }

  method AssignAll(line: Parsed, names: seq<string>, seen: map<string, bv8>, modes: map<string, Mode>)
    returns (seen': map<string, bv8>, modes': map<string, Mode>, ok: bool)
    requires forall i :: 0 <= i < |names| ==> names[i] in modes
    ensures ok <==> Fresh(line, seen, names, |names|)
    ensures ok ==> forall x, d :: Marked(seen', x, d) <==> Marked(seen, x, d) || (x in names && Sets(line, d))
    ensures ok ==> modes'.Keys == modes.Keys
    ensures ok ==> forall x :: x in modes ==> modes'[x] == if x in names then SetMode(modes[x], line) else modes[x]
  {
    hide Sets, SetMode, Marked;
    seen', modes', ok := seen, modes, true;
    for k := 0 to |names|
      invariant Fresh(line, seen, names, k)
      invariant forall x, d :: Marked(seen', x, d) <==> Marked(seen, x, d) || (x in names[..k] && Sets(line, d))
      invariant modes'.Keys == modes.Keys
      invariant forall x :: x in modes ==> modes'[x] == if x in names[..k] then SetMode(modes[x], line) else modes[x]
    {
      var name := names[k];
      SomeDirection(line);
      assert Clashes(line, seen', name) <==> Clashes(line, seen, name) || name in names[..k];
      seen', modes', ok := Assign(line, name, seen', modes');
      if !ok {
        return;
      }
      assert names[..k + 1] == names[..k] + [name];
    }
    assert names[..|names|] == names;
  }

  lemma {:induction false} SomeDirection(line: Parsed)
    ensures exists d :: Sets(line, d)
  {
    assert line.direction == "receive" ==> Sets(line, Receive);
    assert line.direction != "receive" ==> Sets(line, Transmit);
  }

  // ---- the extractor ----

  /** Marks record how often each direction has been set so far. */
  ghost predicate Recorded(lines: seq<Parsed>, ports: Inventory, seen: map<string, bv8>, modes: map<string, Mode>) {
    && Unrepeated(lines, ports)
    && (forall x, d :: Marked(seen, x, d) <==> Times(lines, ports, x, d) == 1)
    && modes.Keys == ports.Keys
    && (forall x, d :: x in modes ==> Get(modes[x], d) == (Count(lines, ports, x, d, true) == 0))
  }

  lemma {:induction false} CountSnoc(lines: seq<Parsed>, line: Parsed, ports: Inventory, x: string, d: Direction,
        negated: bool)
    ensures Count(lines + [line], ports, x, d, negated) ==
            Count(lines, ports, x, d, negated) +
            if Sets(line, d) && line.negated == negated then Listing(line, ports)[x] else 0
  {
    assert (lines + [line])[..|lines|] == lines;
  }

  lemma {:induction false} TimesSnoc(lines: seq<Parsed>, line: Parsed, ports: Inventory, x: string, d: Direction)
    ensures Times(lines + [line], ports, x, d) ==
            Times(lines, ports, x, d) + if Sets(line, d) then Listing(line, ports)[x] else 0
  {
    hide Count, Sets, Listing;
    CountSnoc(lines, line, ports, x, d, true);
    CountSnoc(lines, line, ports, x, d, false);
  }

  lemma {:induction false} TimesGrow(lines: seq<Parsed>, k: nat, ports: Inventory, x: string, d: Direction)
    requires k <= |lines|
    ensures Times(lines[..k], ports, x, d) <= Times(lines, ports, x, d)
    decreases |lines|
  {
    hide Times;
    if k == |lines| {
      assert lines[..k] == lines;
    } else {
      var n := |lines| - 1;
      assert lines == lines[..n] + [lines[n]] && lines[..n][..k] == lines[..k];
      TimesSnoc(lines[..n], lines[n], ports, x, d);
      TimesGrow(lines[..n], k, ports, x, d);
    }
  }

  lemma {:induction false} OccurrenceCount(names: seq<string>, x: string)
    ensures multiset(names)[x] <= 1 <==> forall i, j :: 0 <= i < j < |names| && names[j] == x ==> names[i] != x
  {
    if names != [] {
      var n := |names| - 1;
      assert names == names[..n] + [names[n]];
      OccurrenceCount(names[..n], x);
      if names[n] == x && multiset(names[..n])[x] > 0 {
        assert x in multiset(names[..n]);
        assert x in names[..n];
      }
    }
  }

  /** A line's assignments succeed exactly when no direction is then set twice. */
  lemma {:induction false} FreshIsUnrepeated(lines: seq<Parsed>, line: Parsed, ports: Inventory,
        seen: map<string, bv8>, modes: map<string, Mode>, names: seq<string>)
    requires Recorded(lines, ports, seen, modes) && multiset(names) == Listing(line, ports)
    ensures Fresh(line, seen, names, |names|) <==> Unrepeated(lines + [line], ports)
  {
    hide Marked, Sets, Count, Times, Listing;
    SomeDirection(line);
    if Fresh(line, seen, names, |names|) {
      forall x, d ensures Times(lines + [line], ports, x, d) <= 1 {
        TimesSnoc(lines, line, ports, x, d);
        OccurrenceCount(names, x);
        assert forall i, j :: 0 <= i < j < |names| && names[j] == x ==> names[i] != x by {
          FreshOnce(line, seen, names, x);
        }
        if x in names {
          var i :| 0 <= i < |names| && names[i] == x;
          assert !Clashes(line, seen, names[i]);
        }
      }
    }
    if Unrepeated(lines + [line], ports) {
      forall i | 0 <= i < |names| ensures !Clashes(line, seen, names[i]) && names[i] !in names[..i] {
        var x := names[i];
        assert x in multiset(names);
        forall d | Sets(line, d) ensures !Marked(seen, x, d) && multiset(names)[x] <= 1 {
          TimesSnoc(lines, line, ports, x, d);
          assert Times(lines + [line], ports, x, d) <= 1;
        }
        OccurrenceCount(names, x);
      }
    }
  }

  lemma {:induction false} FreshOnce(line: Parsed, seen: map<string, bv8>, names: seq<string>, x: string)
    requires Fresh(line, seen, names, |names|)
    ensures forall i, j :: 0 <= i < j < |names| && names[j] == x ==> names[i] != x
  {
    forall i, j | 0 <= i < j < |names| && names[j] == x ensures names[i] != x {
      assert names[j] !in names[..j];
      assert names[..j][i] == names[i];
    }
  }

  lemma {:induction false} RecordedStep(lines: seq<Parsed>, line: Parsed, ports: Inventory, seen: map<string, bv8>,
        modes: map<string, Mode>, names: seq<string>, seen': map<string, bv8>, modes': map<string, Mode>)
    requires Recorded(lines, ports, seen, modes) && multiset(names) == Listing(line, ports)
    requires Unrepeated(lines + [line], ports)
    requires forall x, d :: Marked(seen', x, d) <==> Marked(seen, x, d) || (x in names && Sets(line, d))
    requires modes'.Keys == modes.Keys
    requires forall x :: x in modes ==> modes'[x] == if x in names then SetMode(modes[x], line) else modes[x]
    ensures Recorded(lines + [line], ports, seen', modes')
  {
    hide Marked, Sets, Count, Times, Listing, SetMode, Get;
    forall x, d
      ensures Marked(seen', x, d) <==> Times(lines + [line], ports, x, d) == 1
      ensures x in modes' ==> Get(modes'[x], d) == (Count(lines + [line], ports, x, d, true) == 0)
    {
      assert x in names <==> multiset(names)[x] > 0;
      TimesSnoc(lines, line, ports, x, d);
      CountSnoc(lines, line, ports, x, d, true);
      assert Times(lines + [line], ports, x, d) <= 1;
      CountsWithin(lines, ports, x, d);
    }
  }

  lemma {:induction false} CountsWithin(lines: seq<Parsed>, ports: Inventory, x: string, d: Direction)
    ensures Count(lines, ports, x, d, true) <= Times(lines, ports, x, d)
  {
  }

  /** A fact about the grammar: the port ranges of a valid line hold positive 64-bit numbers. */
  ghost predicate WideRanges(cs: seq<Command>) {
    forall i, k :: 0 <= i < |cs| && cs[i].parsed.valid && 0 <= k < |cs[i].parsed.portRanges| ==>
      Wide(cs[i].parsed.portRanges[k])
  }

  method ReadInventory(names: seq<string>) returns (ports: Inventory, modes: map<string, Mode>, ok: bool)
    ensures ok <==> InventoryOk(names)
    ensures ok ==> ports == InventoryOf(names) && modes.Keys == ports.Keys
    ensures ok ==> forall x :: x in modes ==> modes[x] == Mode(true, true)
  {
    hide PortOf;
    ports, modes, ok := map[], map[], true;
    for i := 0 to |names|
      invariant InventoryOk(names[..i])
      invariant ports == InventoryOf(names[..i]) && modes.Keys == ports.Keys
      invariant forall x :: x in modes ==> modes[x] == Mode(true, true)
    {
      var name := names[i];
      assert names[..i + 1] == names[..i] + [name];
      if !Canonical(name) {
        return ports, modes, false;
      }
      if name in ports {
        var j :| 0 <= j < i && names[j] == name;
        return ports, modes, false;
      }
      ports := ports[name := PortOf(name[|PREFIX|..]).value];
      modes := modes[name := Mode(true, true)];
    }
    assert names[..|names|] == names;
  }

  lemma {:induction false} NothingRecorded(ports: Inventory, modes: map<string, Mode>)
    requires modes.Keys == ports.Keys && forall x :: x in modes ==> modes[x] == Mode(true, true)
    ensures Recorded([], ports, map[], modes)
  {
    assert forall d :: !HasBit(0, d);
  }

  lemma {:induction false} RecordedModes(lines: seq<Parsed>, ports: Inventory, seen: map<string, bv8>,
        modes: map<string, Mode>)
    requires Recorded(lines, ports, seen, modes)
    ensures modes == ModesOf(lines, ports)
  {
    hide Count, Marked, Unrepeated;
    forall x | x in modes ensures modes[x] == ModesOf(lines, ports)[x] {
      assert Get(modes[x], Receive) == (Count(lines, ports, x, Receive, true) == 0);
      assert Get(modes[x], Transmit) == (Count(lines, ports, x, Transmit, true) == 0);
    }
  }

  /** One port line: refused when malformed, unresolvable, or setting a direction again. */
  method AddLine(ghost lines: seq<Parsed>, line: Parsed, ports: Inventory, seen: map<string, bv8>,
        modes: map<string, Mode>)
    returns (seen': map<string, bv8>, modes': map<string, Mode>, ok: bool)
    requires Injective(ports) && Recorded(lines, ports, seen, modes)
    requires line.valid ==> forall k :: 0 <= k < |line.portRanges| ==> Wide(line.portRanges[k])
    ensures ok <==> LineOk(line, ports) && Unrepeated(lines + [line], ports)
    ensures ok ==> Recorded(lines + [line], ports, seen', modes')
  {
    hide Injective, Resolvable, Marked, Unrepeated, Sets, SetMode;
    seen', modes', ok := seen, modes, true;
    if !line.valid {
      return seen', modes', false;
    }
    var names := ResolvePorts(line, ports);
    if names.None? {
      return seen', modes', false;
    }
    ListedKnown(line, ports, names.value);
    FreshIsUnrepeated(lines, line, ports, seen, modes, names.value);
    seen', modes', ok := AssignAll(line, names.value, seen, modes);
    if ok {
      RecordedStep(lines, line, ports, seen, modes, names.value, seen', modes');
    }
  }

  lemma {:induction false} ListedKnown(line: Parsed, ports: Inventory, names: seq<string>)
    requires multiset(names) == Listing(line, ports)
    ensures forall i :: 0 <= i < |names| ==> names[i] in ports
  {
    hide Coverage, Within;
    forall i | 0 <= i < |names| ensures names[i] in ports {
      assert names[i] in multiset(names);
      CoverageUnion(line.portRanges, ports, names[i]);
    }
  }

  lemma {:induction false} LinesPrefix(cs: seq<Command>, i: nat)
    requires i <= |cs|
    ensures LinesOf(cs, i) <= LinesOf(cs, |cs|)
    decreases |cs| - i
  {
    hide PortLine;
    if i < |cs| { LinesPrefix(cs, i + 1); }
  }

  lemma {:induction false} RefusedLine(cs: seq<Command>, i: nat, ports: Inventory)
    requires i < |cs| && PortLine(cs[i])
    requires !LineOk(cs[i].parsed, ports) || !Unrepeated(LinesOf(cs, i) + [cs[i].parsed], ports)
    ensures !LldpOk(LinesOf(cs, |cs|), ports)
  {
    hide LineOk, Times;
    var lines, all := LinesOf(cs, i) + [cs[i].parsed], LinesOf(cs, |cs|);
    LinesPrefix(cs, i + 1);
    assert LinesOf(cs, i + 1) == lines && all[|lines| - 1] == cs[i].parsed;
    if !Unrepeated(lines, ports) {
      var x, d :| Times(lines, ports, x, d) > 1;
      assert all[..|lines|] == lines;
      TimesGrow(all, |lines|, ports, x, d);
    }
  }

  /** Modes of every port, and the texts of all other commands. */
  method LLDPPorts(cs: seq<Command>, names: seq<string>) returns (r: Option<(map<string, Mode>, seq<string>)>)
    requires WideRanges(cs)
    ensures r.Some? <==> InventoryOk(names) && LldpOk(LinesOf(cs, |cs|), InventoryOf(names))
    ensures r.Some? ==> r.value == (ModesOf(LinesOf(cs, |cs|), InventoryOf(names)), OtherTexts(cs, |cs|))
  {
    hide InventoryOk, InventoryOf, Injective, Recorded, ModesOf, Unrepeated, LineOk;
    var ports, modes, ok := ReadInventory(names);
    if !ok {
      return None;
    }
    InventoryInjective(names);
    NothingRecorded(ports, modes);
    var seen: map<string, bv8> := map[];
    var remaining: seq<string> := [];
    for i := 0 to |cs|
      invariant Recorded(LinesOf(cs, i), ports, seen, modes)
      invariant forall k :: 0 <= k < |LinesOf(cs, i)| ==> LineOk(LinesOf(cs, i)[k], ports)
      invariant remaining == OtherTexts(cs, i)
    {
      if cs[i].parent != -1 || !cs[i].parsed.kind.LldpPorts? {
        assert LinesOf(cs, i + 1) == LinesOf(cs, i);
        remaining := remaining + [cs[i].text];
        continue;
      }
      seen, modes, ok := AddLine(LinesOf(cs, i), cs[i].parsed, ports, seen, modes);
      if !ok {
        RefusedLine(cs, i, ports);
        return None;
      }
    }
    RecordedUnrepeated(LinesOf(cs, |cs|), ports, seen, modes);
    RecordedModes(LinesOf(cs, |cs|), ports, seen, modes);
    return Some((modes, remaining));
  }

  lemma {:induction false} RecordedUnrepeated(lines: seq<Parsed>, ports: Inventory, seen: map<string, bv8>,
        modes: map<string, Mode>)
    requires Recorded(lines, ports, seen, modes)
    ensures Unrepeated(lines, ports)
  {
  }

  // ---- order and grouping do not matter ----

  lemma {:induction false} CountRemove(lines: seq<Parsed>, k: nat, ports: Inventory, x: string, d: Direction,
        negated: bool)
    requires k < |lines|
    ensures Count(lines, ports, x, d, negated) ==
            Count(RemoveAt(lines, k), ports, x, d, negated) + Count([lines[k]], ports, x, d, negated)
  {
    hide Sets, Listing, Count;
    var n := |lines| - 1;
    var front, last := lines[..n], lines[n];
    assert lines == front + [last] && [] + [last] == [last] && [] + [lines[k]] == [lines[k]];
    CountSnoc(front, last, ports, x, d, negated);
    CountSnoc([], last, ports, x, d, negated);
    assert Count([], ports, x, d, negated) == 0 by { NoCount(ports, x, d, negated); }
    if k == n {
      assert RemoveAt(lines, k) == front;
    } else {
      CountRemove(front, k, ports, x, d, negated);
      assert RemoveAt(lines, k) == RemoveAt(front, k) + [last];
      CountSnoc(RemoveAt(front, k), last, ports, x, d, negated);
    }
  }

  lemma {:induction false} NoCount(ports: Inventory, x: string, d: Direction, negated: bool)
    ensures Count([], ports, x, d, negated) == 0
  {
  }

  lemma {:induction false} CountPermuted(a: seq<Parsed>, b: seq<Parsed>, ports: Inventory, x: string, d: Direction,
        negated: bool)
    requires multiset(a) == multiset(b)
    ensures Count(a, ports, x, d, negated) == Count(b, ports, x, d, negated)
    decreases |a|
  {
    hide Count;
    assert |a| == |multiset(a)| == |b|;
    if a == [] {
      assert b == [];
    } else {
      assert a[0] in multiset(b);
      var k :| 0 <= k < |b| && b[k] == a[0];
      CountRemove(a, 0, ports, x, d, negated);
      CountRemove(b, k, ports, x, d, negated);
      RemoveMultiset(a, 0);
      RemoveMultiset(b, k);
      CountPermuted(RemoveAt(a, 0), RemoveAt(b, k), ports, x, d, negated);
    }
  }

  /** Permuting the LLDP lines changes neither acceptance nor any mode. */
  lemma {:induction false} LinesPermuted(a: seq<Parsed>, b: seq<Parsed>, ports: Inventory)
    requires multiset(a) == multiset(b)
    ensures LldpOk(a, ports) <==> LldpOk(b, ports)
    ensures ModesOf(a, ports) == ModesOf(b, ports)
  {
    hide Count, LineOk;
    forall x, d, negated ensures Count(a, ports, x, d, negated) == Count(b, ports, x, d, negated) {
      CountPermuted(a, b, ports, x, d, negated);
    }
    forall i | 0 <= i < |a| && LldpOk(b, ports) ensures LineOk(a[i], ports) {
      assert a[i] in multiset(b);
      var k :| 0 <= k < |b| && b[k] == a[i];
    }
    forall i | 0 <= i < |b| && LldpOk(a, ports) ensures LineOk(b[i], ports) {
      assert b[i] in multiset(a);
      var k :| 0 <= k < |a| && a[k] == b[i];
    }
    forall x, d ensures Times(a, ports, x, d) == Times(b, ports, x, d) {
    }
  }

  /** Splitting one line's ranges over two lines of the same direction and sense changes
      neither acceptance nor any mode. */
  lemma {:induction false} LinesRegrouped(lines: seq<Parsed>, line: Parsed, s: seq<PortRange>, t: seq<PortRange>,
        ports: Inventory)
    requires !line.allPorts && line.portRanges == s + t
    ensures var whole, split := lines + [line], lines + [line.(portRanges := s), line.(portRanges := t)];
            && (LldpOk(whole, ports) <==> LldpOk(split, ports))
            && ModesOf(whole, ports) == ModesOf(split, ports)
  {
    hide Count, Times, LineOk, Listing, Sets;
    var l1, l2 := line.(portRanges := s), line.(portRanges := t);
    var whole, split := lines + [line], lines + [l1, l2];
    assert split == (lines + [l1]) + [l2];
    forall x, d, negated ensures Count(whole, ports, x, d, negated) == Count(split, ports, x, d, negated) {
      SplitListing(line, s, t, ports);
      CountSnoc(lines, line, ports, x, d, negated);
      CountSnoc(lines, l1, ports, x, d, negated);
      CountSnoc(lines + [l1], l2, ports, x, d, negated);
      SameDirection(line, l1, d);
      SameDirection(line, l2, d);
    }
    forall x, d ensures Times(whole, ports, x, d) == Times(split, ports, x, d) {
      TimesFromCounts(whole, split, ports, x, d);
    }
    SplitOk(line, s, t, ports);
    forall i | 0 <= i < |whole| && LldpOk(split, ports) ensures LineOk(whole[i], ports) {
      if i < |lines| { assert split[i] == whole[i]; } else { assert split[i] == l1 && split[i + 1] == l2; }
    }
    forall i | 0 <= i < |split| && LldpOk(whole, ports) ensures LineOk(split[i], ports) {
      if i < |lines| { assert split[i] == whole[i]; } else { assert whole[|lines|] == line; }
    }
  }

  lemma {:induction false} SameDirection(line: Parsed, other: Parsed, d: Direction)
    requires line.direction == other.direction
    ensures Sets(line, d) == Sets(other, d)
  {
  }

  lemma {:induction false} TimesFromCounts(a: seq<Parsed>, b: seq<Parsed>, ports: Inventory, x: string, d: Direction)
    requires forall negated :: Count(a, ports, x, d, negated) == Count(b, ports, x, d, negated)
    ensures Times(a, ports, x, d) == Times(b, ports, x, d)
  {
    hide Count;
  }

  lemma {:induction false} SplitListing(line: Parsed, s: seq<PortRange>, t: seq<PortRange>, ports: Inventory)
    requires !line.allPorts && line.portRanges == s + t
    ensures Listing(line, ports) == Listing(line.(portRanges := s), ports) + Listing(line.(portRanges := t), ports)
  {
    hide Coverage;
    CoverageAppend(s, t, ports);
  }

  lemma {:induction false} SplitOk(line: Parsed, s: seq<PortRange>, t: seq<PortRange>, ports: Inventory)
    requires !line.allPorts && line.portRanges == s + t
    ensures LineOk(line, ports) <==> LineOk(line.(portRanges := s), ports) && LineOk(line.(portRanges := t), ports)
  {
    hide Complete;
    if LineOk(line, ports) {
      assert forall i :: 0 <= i < |s| ==> line.portRanges[i] == s[i];
      assert forall i :: 0 <= i < |t| ==> line.portRanges[|s| + i] == t[i];
    }
  }
}
