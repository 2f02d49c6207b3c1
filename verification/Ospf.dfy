/** Default-VRF OSPF areas and their interface bindings, read from the native document. */
module Ospf {
  import opened Prelude
  import opened Sorting
  import opened Text
  import opened Decimal
  import opened Native

  datatype OspfError =
    | BadVrf | BadProcess | RepeatedProcess | BadArea | BadBinding | UndeclaredArea

  /** A dotted quad, or an unsigned 32-bit number. */
  function OspfId(raw: string): (r: Option<Address>) {
    if ParseIPv4(raw).Some? then ParseIPv4(raw)
    else ParseUint(raw, 0x1_0000_0000)
  }

  type Areas = map<Address, seq<string>>

  // ---- what the lines mean ----

  predicate DefaultRouter(c: Command) {
    c.parent == -1 && c.parsed.kind.OspfRouter? && c.parsed.name == ""
  }

  predicate AreaLine(cs: seq<Command>, i: nat)
    requires i < |cs|
  {
    cs[i].parsed.kind.OspfArea? && 0 <= cs[i].parent < |cs| && DefaultRouter(cs[cs[i].parent])
  }

  predicate VrfLine(c: Command) { c.parsed.kind.InterfaceVrf? && c.parent >= 0 }

  /** Some line below scope `p` moves the interface to another VRF. */
  ghost predicate VrfScope(cs: seq<Command>, p: int) {
    exists i :: 0 <= i < |cs| && VrfLine(cs[i]) && cs[i].parent == p
  }

  ghost predicate BindingLine(cs: seq<Command>, i: nat)
    requires i < |cs|
  {
    && cs[i].parsed.kind.OspfBinding? && 0 <= cs[i].parent < |cs|
    && cs[cs[i].parent].parsed.kind.InterfaceStanza?
    && !VrfScope(cs, cs[i].parent)
  }

  ghost function AreaIds(cs: seq<Command>, n: nat): set<Address>
    requires n <= |cs|
  {
    set i | 0 <= i < n && AreaLine(cs, i) && OspfId(cs[i].parsed.name).Some? :: OspfId(cs[i].parsed.name).value
  }

  /** What one command contributes to the bindings of area `a`. */
  ghost function Contribution(cs: seq<Command>, i: nat, a: Address): seq<string>
    requires i < |cs|
  {
    if BindingLine(cs, i) && OspfId(cs[i].parsed.name) == Some(a)
    then [cs[cs[i].parent].parsed.name] else []
  }

  /** The interfaces bound to area `a` by the first `n` commands, in document order. */
  ghost function Bound(cs: seq<Command>, n: nat, a: Address): seq<string>
    requires n <= |cs|
  {
    if n == 0 then [] else Bound(cs, n - 1, a) + Contribution(cs, n - 1, a)
  }

  ghost function AreasOf(cs: seq<Command>): Areas {
    map a | a in AreaIds(cs, |cs|) :: Sort(Bound(cs, |cs|, a), StringLeq)
  }

  // ---- when the lines are well formed ----

  ghost predicate VrfOk(cs: seq<Command>, i: nat)
    requires i < |cs|
  {
    VrfLine(cs[i]) ==> cs[i].parsed.valid && forall j :: 0 <= j < i && VrfLine(cs[j]) ==> cs[j].parent != cs[i].parent
  }

  ghost predicate RouterOk(cs: seq<Command>, i: nat)
    requires i < |cs|
  {
    cs[i].parsed.kind.OspfRouter? && cs[i].parent == -1 ==>
      && cs[i].parsed.valid
      && (cs[i].parsed.name == "" ==> forall j :: 0 <= j < i ==> !DefaultRouter(cs[j]))
  }

  ghost predicate Declares(cs: seq<Command>, i: nat, id: Option<Address>)
    requires i < |cs|
  {
    AreaLine(cs, i) && !cs[i].parsed.options && OspfId(cs[i].parsed.name) == id
  }

  ghost predicate AreaOk(cs: seq<Command>, i: nat)
    requires i < |cs|
  {
    AreaLine(cs, i) ==>
      && cs[i].parsed.valid && OspfId(cs[i].parsed.name).Some?
      && (cs[i].parsed.options || forall j :: 0 <= j < i ==> !Declares(cs, j, OspfId(cs[i].parsed.name)))
  }

  ghost predicate BindingOk(cs: seq<Command>, i: nat)
    requires i < |cs|
  {
    BindingLine(cs, i) ==>
      var stanza := cs[cs[i].parent].parsed;
      && stanza.valid && cs[i].parsed.valid && OspfId(cs[i].parsed.name).Some?
      && OspfId(cs[i].parsed.name).value in AreaIds(cs, |cs|)
      && (forall j :: 0 <= j < i && BindingLine(cs, j) ==> cs[cs[j].parent].parsed.name != stanza.name)
  }

  ghost predicate FirstOk(cs: seq<Command>, i: nat)
    requires i < |cs|
  {
    VrfOk(cs, i) && RouterOk(cs, i) && AreaOk(cs, i)
  }

  ghost predicate OspfOk(cs: seq<Command>) {
    && (forall i :: 0 <= i < |cs| ==> FirstOk(cs, i))
    && (forall i :: 0 <= i < |cs| ==> BindingOk(cs, i))
  }

  ghost predicate Treelike(cs: seq<Command>) {
    forall i :: 0 <= i < |cs| ==> -1 <= cs[i].parent < i
  }

  // ---- the extractor's first pass, one concern at a time ----

  ghost predicate VrfsOf(cs: seq<Command>, n: nat, vrfs: set<int>)
    requires n <= |cs|
  {
    forall p :: p in vrfs <==> exists i :: 0 <= i < n && VrfLine(cs[i]) && cs[i].parent == p
  }

  ghost predicate ProcessOf(cs: seq<Command>, n: nat, process: int)
    requires n <= |cs|
  {
    && -1 <= process < n
    && (forall i :: 0 <= i < n ==> (DefaultRouter(cs[i]) <==> i == process))
  }

  ghost predicate DeclaredOf(cs: seq<Command>, n: nat, declared: set<Address>)
    requires n <= |cs|
  {
    forall a :: a in declared <==> exists i :: 0 <= i < n && Declares(cs, i, Some(a))
  }

  method NoteVrf(cs: seq<Command>, n: nat, vrfs: set<int>) returns (after: set<int>, ok: bool)
    requires n < |cs| && VrfsOf(cs, n, vrfs)
    ensures ok <==> VrfOk(cs, n)
    ensures ok ==> VrfsOf(cs, n + 1, after)
  {
    var c := cs[n];
    after, ok := vrfs, true;
    if c.parsed.kind.InterfaceVrf? && c.parent >= 0 {
      if !c.parsed.valid || c.parent in vrfs {
        return after, false;
      }
      after := vrfs + {c.parent};
    }
  }

  method NoteRouter(cs: seq<Command>, n: nat, process: int) returns (after: int, err: Option<OspfError>)
    requires n < |cs| && ProcessOf(cs, n, process)
    ensures err == None <==> RouterOk(cs, n)
    ensures err == None ==> ProcessOf(cs, n + 1, after)
  {
    var c := cs[n];
    after, err := process, None;
    if c.parsed.kind.OspfRouter? && c.parent == -1 {
      if !c.parsed.valid {
        return after, Some(BadProcess);
      }
      if c.parsed.name == "" {
        if process >= 0 {
          assert DefaultRouter(cs[process]);
          return after, Some(RepeatedProcess);
        }
        after := n;
      }
    }
  }

  lemma {:induction false} AreaIdsStep(cs: seq<Command>, n: nat)
    requires n < |cs|
    ensures AreaIds(cs, n + 1) == AreaIds(cs, n) +
              if AreaLine(cs, n) && OspfId(cs[n].parsed.name).Some? then {OspfId(cs[n].parsed.name).value} else {}
  {
    hide OspfId, AreaLine;
  }

  method NoteArea(cs: seq<Command>, n: nat, process: int, declared: set<Address>, areas: Areas)
    returns (declared': set<Address>, areas': Areas, ok: bool)
    requires n < |cs| && -1 <= cs[n].parent < n && ProcessOf(cs, n + 1, process) && DeclaredOf(cs, n, declared)
    requires areas.Keys == AreaIds(cs, n) && (forall a :: a in areas ==> areas[a] == [])
    ensures ok <==> AreaOk(cs, n)
    ensures ok ==> DeclaredOf(cs, n + 1, declared')
    ensures ok ==> areas'.Keys == AreaIds(cs, n + 1) && forall a :: a in areas' ==> areas'[a] == []
  {
    hide OspfId, AreaIds;
    var c := cs[n];
    declared', areas', ok := declared, areas, true;
    AreaIdsStep(cs, n);
    if process < 0 || c.parent != process || !c.parsed.kind.OspfArea? {
      assert !AreaLine(cs, n);
      return;
    }
    assert AreaLine(cs, n);
    var id := OspfId(c.parsed.name);
    if !c.parsed.valid || id.None? || (id.value in declared && !c.parsed.options) {
      return declared', areas', false;
    }
    if !c.parsed.options {
      assert Declares(cs, n, Some(id.value));
      declared' := declared + {id.value};
    }
    areas' := areas[id.value := []];
  }

  method FirstPass(cs: seq<Command>) returns (vrfs: set<int>, areas: Areas, err: Option<OspfError>)
    requires Treelike(cs)
    ensures err == None <==> forall i :: 0 <= i < |cs| ==> FirstOk(cs, i)
    ensures err == None ==> areas.Keys == AreaIds(cs, |cs|) && (forall a :: a in areas ==> areas[a] == [])
    ensures err == None ==> VrfsOf(cs, |cs|, vrfs)
  {
    hide VrfOk, RouterOk, AreaOk, OspfId, AreaLine;
    vrfs, areas, err := {}, map[], None;
    var declared: set<Address> := {};
    var process := -1;
    assert AreaIds(cs, 0) == {};
    for i := 0 to |cs|
      invariant err == None && VrfsOf(cs, i, vrfs) && ProcessOf(cs, i, process) && DeclaredOf(cs, i, declared)
      invariant areas.Keys == AreaIds(cs, i) && forall a :: a in areas ==> areas[a] == []
      invariant forall j :: 0 <= j < i ==> FirstOk(cs, j)
    {
      hide VrfsOf, ProcessOf, DeclaredOf, AreaIds;
      var ok;
      vrfs, ok := NoteVrf(cs, i, vrfs);
      if !ok {
        assert !FirstOk(cs, i);
        return vrfs, areas, Some(BadVrf);
      }
      process, err := NoteRouter(cs, i, process);
      if err.Some? {
        assert !FirstOk(cs, i);
        return;
      }
      declared, areas, ok := NoteArea(cs, i, process, declared, areas);
      if !ok {
        assert !FirstOk(cs, i);
        return vrfs, areas, Some(BadArea);
      }
    }
  }

  // ---- the second pass: bindings ----

  ghost predicate BoundSoFar(cs: seq<Command>, n: nat, areas: Areas, names: set<string>)
    requires n <= |cs|
  {
    && areas.Keys == AreaIds(cs, |cs|)
    && (forall a :: a in areas ==> areas[a] == Bound(cs, n, a))
    && (forall x :: x in names <==> exists j :: 0 <= j < n && BindingLine(cs, j) && cs[cs[j].parent].parsed.name == x)
  }

  lemma {:induction false} VrfKnown(cs: seq<Command>, vrfs: set<int>, p: int)
    requires VrfsOf(cs, |cs|, vrfs)
    ensures p in vrfs <==> VrfScope(cs, p)
  {
  }

  method NoteBinding(cs: seq<Command>, n: nat, vrfs: set<int>, areas: Areas, names: set<string>)
    returns (areas': Areas, names': set<string>, err: Option<OspfError>)
    requires n < |cs| && -1 <= cs[n].parent < n
    requires VrfsOf(cs, |cs|, vrfs) && BoundSoFar(cs, n, areas, names)
    ensures err == None <==> BindingOk(cs, n)
    ensures err == None ==> BoundSoFar(cs, n + 1, areas', names')
  {
    hide OspfId, AreaIds, VrfScope, VrfsOf;
    var c := cs[n];
    areas', names', err := areas, names, None;
    VrfKnown(cs, vrfs, c.parent);
    if !c.parsed.kind.OspfBinding? || c.parent < 0 || c.parent in vrfs {
      return;
    }
    var stanza := cs[c.parent].parsed;
    if !stanza.kind.InterfaceStanza? {
      return;
    }
    assert BindingLine(cs, n);
    var id := OspfId(c.parsed.name);
    if !stanza.valid || !c.parsed.valid || id.None? || stanza.name in names {
      return areas', names', Some(BadBinding);
    }
    if id.value !in areas {
      return areas', names', Some(UndeclaredArea);
    }
    names' := names + {stanza.name};
    areas' := areas[id.value := areas[id.value] + [stanza.name]];
  }

  method SortAll(areas: Areas) returns (sorted: Areas)
    ensures sorted.Keys == areas.Keys && forall a :: a in areas ==> sorted[a] == Sort(areas[a], StringLeq)
  {
    sorted := areas;
    var todo := areas.Keys;
    while todo != {}
      invariant todo <= areas.Keys == sorted.Keys
      invariant forall a :: a in areas ==> sorted[a] == if a in todo then areas[a] else Sort(areas[a], StringLeq)
      decreases |todo|
    {
      var a :| a in todo;
      sorted := sorted[a := Sort(sorted[a], StringLeq)];
      todo := todo - {a};
    }
  }

  lemma {:induction false} NothingBound(cs: seq<Command>, areas: Areas)
    requires areas.Keys == AreaIds(cs, |cs|) && forall a :: a in areas ==> areas[a] == []
    ensures BoundSoFar(cs, 0, areas, {})
  {
    hide AreaIds;
  }

  lemma {:induction false} AllBound(cs: seq<Command>, areas: Areas, sorted: Areas, names: set<string>)
    requires BoundSoFar(cs, |cs|, areas, names)
    requires sorted.Keys == areas.Keys && forall a :: a in areas ==> sorted[a] == Sort(areas[a], StringLeq)
    ensures sorted == AreasOf(cs)
  {
    hide AreaIds, Bound, Sort, StringLeq;
  }

  /** Declared default-VRF areas, each with the sorted names of the interfaces bound to it. */
  method OSPFAreas(cs: seq<Command>) returns (r: Result<Areas, OspfError>)
    requires Treelike(cs)
    ensures r.Ok? <==> OspfOk(cs)
    ensures r.Ok? ==> r.value == AreasOf(cs)
  {
    hide BindingOk, FirstOk, VrfsOf, Bound, Sort, StringLeq, AreaIds, BoundSoFar;
    var vrfs, areas, err := FirstPass(cs);
    if err.Some? {
      return Err(err.value);
    }
    var names: set<string> := {};
    NothingBound(cs, areas);
    for i := 0 to |cs|
      invariant BoundSoFar(cs, i, areas, names)
      invariant forall j :: 0 <= j < i ==> BindingOk(cs, j)
    {
      areas, names, err := NoteBinding(cs, i, vrfs, areas, names);
      if err.Some? {
        return Err(err.value);
      }
    }
    var sorted := SortAll(areas);
    AllBound(cs, areas, sorted, names);
    return Ok(sorted);
  }
}
