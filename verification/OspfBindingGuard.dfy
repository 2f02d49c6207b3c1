/** The guard for one interface's OSPF binding. */
module OspfBindingGuard {
  import opened Prelude
  import opened Sorting
  import opened Text
  import opened Decimal
  import opened Native
  import opened Tree
  import opened Scopes
  import opened Ospf
  import opened OspfSpelling
  import opened OspfGuard

  predicate HeaderLine(c: Command, name: string) {
    c.parent == -1 && c.parsed.kind.InterfaceStanza? && c.parsed.valid && c.parsed.name == name
  }

  predicate UnderHeader(cs: seq<Command>, i: nat, name: string)
    requires i < |cs|
  {
    0 <= cs[i].parent < |cs| && HeaderLine(cs[cs[i].parent], name)
  }

  predicate BindingOwnedAt(cs: seq<Command>, i: nat, id: Address, name: string) {
    && i < |cs|
    && (|| HeaderLine(cs[i], name)
        || (UnderHeader(cs, i, name) && cs[i].parsed.kind.OspfBinding? && OspfId(cs[i].parsed.name) == Some(id)))
  }

  function BindingOwned(cs: seq<Command>, id: Address, name: string): nat -> bool {
    (i: nat) => BindingOwnedAt(cs, i, id, name)
  }

  ghost predicate OneHeader(cs: seq<Command>, name: string) {
    forall i, j :: 0 <= i < j < |cs| ==> !(HeaderLine(cs[i], name) && HeaderLine(cs[j], name))
  }

  /** The interface stays in the default VRF and its binding carries no options. */
  ghost predicate ChildOk(cs: seq<Command>, i: nat, name: string)
    requires i < |cs|
  {
    UnderHeader(cs, i, name) ==>
      && !cs[i].parsed.kind.InterfaceVrf?
      && (cs[i].parsed.kind.OspfBinding? ==>
         cs[i].parsed.valid && OspfId(cs[i].parsed.name).Some? && !cs[i].parsed.options)
  }

  ghost predicate BindingGuardOk(cs: seq<Command>, name: string) {
    OspfOk(cs) && OneHeader(cs, name) && forall i :: 0 <= i < |cs| ==> ChildOk(cs, i, name)
  }

  ghost predicate BindingUpdateAccepted(before: seq<Command>, after: seq<Command>, id: Address, name: string) {
    && BindingGuardOk(before, name) && BindingGuardOk(after, name)
    && Remaining(before, BindingOwned(before, id, name)) == Remaining(after, BindingOwned(after, id, name))
  }

  // ---- the guard as it runs ----

  ghost predicate HeaderAt(cs: seq<Command>, n: nat, name: string, header: int)
    requires n <= |cs|
  {
    -1 <= header < n && forall i :: 0 <= i < n ==> (HeaderLine(cs[i], name) <==> i == header)
  }

  /** The unique top-level stanza of the interface; -1 when it has none. */
  method InterfaceHeader(cs: seq<Command>, name: string) returns (found: int, ok: bool)
    ensures ok <==> OneHeader(cs, name)
    ensures ok ==> HeaderAt(cs, |cs|, name, found)
  {
    found := -1;
    for i := 0 to |cs|
      invariant HeaderAt(cs, i, name, found)
    {
      var c := cs[i];
      if c.parent != -1 || !c.parsed.kind.InterfaceStanza? || !c.parsed.valid || c.parsed.name != name {
        continue;
      }
      if found != -1 {
        assert HeaderLine(cs[found], name);
        return -1, false;
      }
      found := i;
    }
    return found, true;
  }

  lemma {:induction false} UnderHeaderIs(cs: seq<Command>, name: string, header: int, i: nat)
    requires i < |cs| && Treelike(cs) && HeaderAt(cs, |cs|, name, header)
    ensures UnderHeader(cs, i, name) <==> header >= 0 && cs[i].parent == header
    ensures HeaderLine(cs[i], name) <==> i == header
  {
  }

  method OspfBindingRemaining(cs: seq<Command>, id: Address, name: string) returns (r: Option<seq<string>>)
    requires Treelike(cs)
    ensures r.Some? <==> BindingGuardOk(cs, name)
    ensures r.Some? ==> r.value == Remaining(cs, BindingOwned(cs, id, name))
  {
    hide OspfOk, OneHeader, OspfId, Scope, AreasOf;
    var checked := OSPFAreas(cs);
    if checked.Err? {
      return None;
    }
    var header, ok := InterfaceHeader(cs, name);
    if !ok {
      return None;
    }
    var scopes: seq<string>, remaining: seq<string> := [], [];
    assert ScopesOf(cs, []);
    for i := 0 to |cs|
      invariant |scopes| == i && ScopesOf(cs, scopes)
      invariant remaining == KeptScopes(cs, i, BindingOwned(cs, id, name))
      invariant forall j :: 0 <= j < i ==> ChildOk(cs, j, name)
    {
      hide ScopesOf, HeaderAt, UnderHeader, HeaderLine, Treelike;
      UnderHeaderIs(cs, name, header, i);
      ScopesStep(cs, scopes);
      var c := cs[i];
      var scope := ScopeFrom(c, scopes);
      scopes := scopes + [scope];
      if i == header {
        assert !UnderHeader(cs, i, name) by { HeaderTop(cs, i, name); }
        continue;
      }
      if header >= 0 && c.parent == header && c.parsed.kind.InterfaceVrf? {
        assert !ChildOk(cs, i, name);
        return None;
      }
      if header >= 0 && c.parent == header && c.parsed.kind.OspfBinding? {
        var current := OspfId(c.parsed.name);
        if !c.parsed.valid || current.None? || c.parsed.options {
          assert !ChildOk(cs, i, name);
          return None;
        }
        if current == Some(id) {
          continue;
        }
      }
      remaining := remaining + [scope];
    }
    return Some(remaining);
  }

  lemma {:induction false} HeaderTop(cs: seq<Command>, i: nat, name: string)
    requires i < |cs| && HeaderLine(cs[i], name)
    ensures !UnderHeader(cs, i, name)
  {
  }

  /** Verifies that only the selected interface binding changed. */
  method CheckOSPFBindingUpdate(before: seq<Command>, after: seq<Command>, raw: string, name: string)
    returns (accepted: bool)
    requires Treelike(before) && Treelike(after)
    ensures accepted <==> OspfId(raw).Some? && BindingUpdateAccepted(before, after, OspfId(raw).value, name)
    ensures forall id: Address :: Spells(raw, id) ==> (accepted <==> BindingUpdateAccepted(before, after, id, name))
  {
    hide BindingGuardOk, OspfId, Remaining, Spells;
    var wanted := OspfId(raw);
    forall id: Address | Spells(raw, id) ensures wanted == Some(id) { IdMeaning(raw, id); }
    if wanted.None? {
      return false;
    }
    var previous := OspfBindingRemaining(before, wanted.value, name);
    if previous.None? {
      return false;
    }
    var current := OspfBindingRemaining(after, wanted.value, name);
    return current.Some? && previous.value == current.value;
  }

  // ---- what acceptance means ----

  lemma {:induction false} HeaderAlike(g: Grammar, d1: Doc, i: nat, d2: Doc, j: nat, name: string)
    requires Closed(g, d1) && Closed(g, d2) && i < |d1.commands| && j < |d2.commands|
    requires SameText(d1.commands[i], d2.commands[j])
    ensures HeaderLine(d1.commands[i], name) == HeaderLine(d2.commands[j], name)
  {
    hide FromText, Whole, Partial, Chain;
    ClosedSound(g, d1);
    ClosedSound(g, d2);
    assert NearestParent(d1.commands, i) && NearestParent(d2.commands, j);
  }

  lemma {:induction false} BindingDetermined(g: Grammar, d1: Doc, d2: Doc, id: Address, name: string)
    requires Closed(g, d1) && Closed(g, d2)
    ensures Determined(d1, BindingOwned(d1.commands, id, name), d2, BindingOwned(d2.commands, id, name))
  {
    hide Closed, Scope, OspfId;
    forall i: nat, j: nat | i < |d1.commands| && j < |d2.commands| && Scope(d1.commands, i) == Scope(d2.commands, j)
      ensures BindingOwnedAt(d1.commands, i, id, name) == BindingOwnedAt(d2.commands, j, id, name)
    {
      SameScope(g, d1, i, d2, j);
      HeaderAlike(g, d1, i, d2, j, name);
      if d1.commands[i].parent >= 0 {
        SameScope(g, d1, d1.commands[i].parent, d2, d2.commands[j].parent);
        HeaderAlike(g, d1, d1.commands[i].parent, d2, d2.commands[j].parent, name);
      }
    }
  }

  lemma {:induction false} BindingSettled(cs: seq<Command>, id: Address, name: string, a: Address, keep: string -> bool)
    requires BindingGuardOk(cs, name) && (a == id ==> !keep(name))
    ensures AllSettled(cs, BindingOwned(cs, id, name)) && OwnedDropped(cs, BindingOwned(cs, id, name), a, keep)
  {
    hide OspfOk, OspfId;
    forall i: nat | i < |cs| && !BindingOwnedAt(cs, i, id, name)
      ensures Settled(cs, BindingOwned(cs, id, name), i)
    {
      var p := cs[i].parent;
      if 0 <= p < |cs| && HeaderLine(cs[p], name) {
        forall k | 0 <= k < |cs| && VrfLine(cs[k]) ensures cs[k].parent != p {
          assert ChildOk(cs, k, name);
        }
      }
    }
  }

  lemma {:induction false} AreaIdsSame(g: Grammar, d1: Doc, o1: nat -> bool, d2: Doc, o2: nat -> bool, a: Address)
    requires Matched(g, d1, o1, d2, o2) && a in AreaIds(d1.commands, |d1.commands|)
    requires forall i: nat :: i < |d1.commands| && AreaLine(d1.commands, i) ==> !o1(i)
    ensures a in AreaIds(d2.commands, |d2.commands|)
  {
    hide Closed, Scope, OspfId, Determined, Paired;
    var c1, c2 := d1.commands, d2.commands;
    var i: nat :| i < |c1| && AreaLine(c1, i) && OspfId(c1[i].parsed.name) == Some(a);
    var k := RankOf(|c1|, o1, i);
    PairedAt(d1, Rank(d1, o1), d2, Rank(d2, o2), k);
    var j := Rank(d2, o2)[k];
    SameScope(g, d1, i, d2, j);
    SameScope(g, d1, c1[i].parent, d2, c2[j].parent);
    ParentKind(g, d1, c1[i].parent, d2, c2[j].parent);
    assert AreaLine(c2, j);
  }

  lemma {:induction false} BindingOwnsNoArea(cs: seq<Command>, id: Address, name: string)
    ensures forall i: nat :: i < |cs| && AreaLine(cs, i) ==> !BindingOwnedAt(cs, i, id, name)
  {
    hide OspfId, DefaultRouter;
  }

  /** An accepted binding update leaves the declared areas alone, every other area's
      interfaces alone, and in the selected area every interface but the selected one. */
  lemma {:induction false} BindingUpdateSound(g: Grammar, d1: Doc, d2: Doc, id: Address, name: string)
    requires Closed(g, d1) && Closed(g, d2)
    requires BindingUpdateAccepted(d1.commands, d2.commands, id, name)
    ensures var before, after, others := AreasOf(d1.commands), AreasOf(d2.commands), (x: string) => x != name;
            && before.Keys == after.Keys
            && (forall a :: a in before && a != id ==> before[a] == after[a])
            && (id in before ==> Filter(before[id], others) == Filter(after[id], others))
  {
    hide Closed, Remaining, BindingGuardOk, Determined, Matched, AreaIds, Bound, BindingOwned, AllSettled,
      OwnedDropped, Filter, TotalOrder, Sort, StringLeq;
    var o1, o2 := BindingOwned(d1.commands, id, name), BindingOwned(d2.commands, id, name);
    BindingDetermined(g, d1, d2, id, name);
    Match(g, d1, o1, d2, o2);
    AreaKeys(g, d1, d2, id, name);
    forall a: Address | a != id
      ensures Bound(d1.commands, |d1.commands|, a) == Bound(d2.commands, |d2.commands|, a)
    {
      var every := (x: string) => true;
      SameExcept(g, d1, d2, id, name, a, every);
      FilterAll(Bound(d1.commands, |d1.commands|, a), every);
      FilterAll(Bound(d2.commands, |d2.commands|, a), every);
    }
    var others := (x: string) => x != name;
    SameExcept(g, d1, d2, id, name, id, others);
    StringOrder();
    FilterSort(Bound(d1.commands, |d1.commands|, id), StringLeq, others);
    FilterSort(Bound(d2.commands, |d2.commands|, id), StringLeq, others);
  }

  lemma {:induction false} SameExcept(g: Grammar, d1: Doc, d2: Doc, id: Address, name: string, a: Address,
        keep: string -> bool)
    requires Matched(g, d1, BindingOwned(d1.commands, id, name), d2, BindingOwned(d2.commands, id, name))
    requires BindingGuardOk(d1.commands, name) && BindingGuardOk(d2.commands, name)
    requires a == id ==> !keep(name)
    ensures Filter(Bound(d1.commands, |d1.commands|, a), keep) == Filter(Bound(d2.commands, |d2.commands|, a), keep)
  {
    hide Matched, BindingGuardOk, AllSettled, OwnedDropped, BindingOwned, Filter, Bound;
    BindingSettled(d1.commands, id, name, a, keep);
    BindingSettled(d2.commands, id, name, a, keep);
    BindingsMatched(g, d1, BindingOwned(d1.commands, id, name), d2, BindingOwned(d2.commands, id, name), a, keep);
  }

  lemma {:induction false} AreaKeys(g: Grammar, d1: Doc, d2: Doc, id: Address, name: string)
    requires Matched(g, d1, BindingOwned(d1.commands, id, name), d2, BindingOwned(d2.commands, id, name))
    ensures AreaIds(d1.commands, |d1.commands|) == AreaIds(d2.commands, |d2.commands|)
  {
    hide Matched, AreaIds, AreaLine, BindingOwnedAt;
    var o1, o2 := BindingOwned(d1.commands, id, name), BindingOwned(d2.commands, id, name);
    MatchedSymmetric(g, d1, o1, d2, o2);
    BindingOwnsNoArea(d1.commands, id, name);
    BindingOwnsNoArea(d2.commands, id, name);
    forall a: Address
      ensures a in AreaIds(d1.commands, |d1.commands|) <==> a in AreaIds(d2.commands, |d2.commands|)
    {
      if a in AreaIds(d1.commands, |d1.commands|) { AreaIdsSame(g, d1, o1, d2, o2, a); }
      if a in AreaIds(d2.commands, |d2.commands|) { AreaIdsSame(g, d2, o2, d1, o1, a); }
    }
  }
}
