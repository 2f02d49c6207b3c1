/** The OSPF ownership guards: what an accepted comparison of two documents guarantees. */
module OspfGuard {
  import opened Prelude
  import opened Sorting
  import opened Text
  import opened Decimal
  import opened Native
  import opened Tree
  import opened Scopes
  import opened Ospf
  import opened OspfSpelling

  // ---- what the area guard compares ----

  predicate AreaOwnedAt(cs: seq<Command>, i: nat) {
    i < |cs| && (DefaultRouter(cs[i]) || AreaLine(cs, i))
  }

  function AreaOwned(cs: seq<Command>): nat -> bool { (i: nat) => AreaOwnedAt(cs, i) }

  /** An area line the guard must not lose: another area's, or one with options. */
  predicate KeptAreaLine(cs: seq<Command>, i: nat, id: Address)
    requires i < |cs|
  {
    AreaLine(cs, i) && (OspfId(cs[i].parsed.name) != Some(id) || cs[i].parsed.options)
  }

  function AreaScopes(cs: seq<Command>, n: nat, id: Address): (r: seq<string>)
    requires n <= |cs|
  {
    if n == 0 then []
    else AreaScopes(cs, n - 1, id) + if KeptAreaLine(cs, n - 1, id) then [Scope(cs, n - 1)] else []
  }

  function AreaKept(cs: seq<Command>, id: Address): seq<string> {
    Remaining(cs, AreaOwned(cs)) + Sort(AreaScopes(cs, |cs|, id), StringLeq)
  }

  ghost predicate HasProcess(cs: seq<Command>) {
    exists i :: 0 <= i < |cs| && DefaultRouter(cs[i])
  }

  ghost predicate AreaUpdateAccepted(before: seq<Command>, after: seq<Command>, id: Address) {
    && OspfOk(before) && OspfOk(after)
    && (HasProcess(before) ==> HasProcess(after))
    && AreaKept(before, id) == AreaKept(after, id)
  }

  /** The running `process` index decides ownership of command `i`. */
  lemma {:induction false} Locate(cs: seq<Command>, i: nat, process: int)
    requires i < |cs| && Treelike(cs) && OspfOk(cs) && ProcessOf(cs, i, process)
    ensures ProcessOf(cs, i + 1, if DefaultRouter(cs[i]) then i else process)
    ensures !DefaultRouter(cs[i]) ==>
              (AreaLine(cs, i) <==> process >= 0 && cs[i].parent == process && cs[i].parsed.kind.OspfArea?)
  {
    hide BindingOk, VrfOk, AreaOk;
    assert FirstOk(cs, i) && RouterOk(cs, i);
  }

  lemma {:induction false} ProcessFound(cs: seq<Command>, process: int)
    requires ProcessOf(cs, |cs|, process)
    ensures process >= 0 <==> HasProcess(cs)
  {
    if process >= 0 { assert DefaultRouter(cs[process]); }
  }

  method OspfAreaRemaining(cs: seq<Command>, id: Address) returns (r: Result<(seq<string>, bool), OspfError>)
    requires Treelike(cs)
    ensures r.Ok? <==> OspfOk(cs)
    ensures r.Ok? ==> r.value.0 == AreaKept(cs, id) && (r.value.1 <==> HasProcess(cs))
  {
    hide OspfOk, OspfId, Sort, Scope, AreaLine, DefaultRouter, HasProcess, AreasOf, Treelike;
    var checked := OSPFAreas(cs);
    if checked.Err? {
      return Err(checked.error);
    }
    var process := -1;
    var scopes: seq<string>, remaining: seq<string>, areas: seq<string> := [], [], [];
    assert ProcessOf(cs, 0, -1) && ScopesOf(cs, []);
    for i := 0 to |cs|
      invariant ProcessOf(cs, i, process)
      invariant |scopes| == i && ScopesOf(cs, scopes)
      invariant remaining == KeptScopes(cs, i, AreaOwned(cs))
      invariant areas == AreaScopes(cs, i, id)
    {
      hide ProcessOf, ScopesOf;
      Locate(cs, i, process);
      ScopesStep(cs, scopes);
      var c := cs[i];
      var scope := ScopeFrom(c, scopes);
      scopes := scopes + [scope];
      if DefaultRouter(c) {
        process := i;
        assert !AreaLine(cs, i) by { RouterNoArea(cs, i); }
        continue;
      }
      if process >= 0 && c.parent == process && c.parsed.kind.OspfArea? {
        if OspfId(c.parsed.name) != Some(id) || c.parsed.options {
          areas := areas + [scope];
        }
        continue;
      }
      remaining := remaining + [scope];
    }
    ProcessFound(cs, process);
    return Ok((remaining + Sort(areas, StringLeq), process >= 0));
  }

  lemma {:induction false} RouterNoArea(cs: seq<Command>, i: nat)
    requires i < |cs| && DefaultRouter(cs[i])
    ensures !AreaLine(cs, i)
  {
  }

  /** Verifies that only the selected area's existence changed. */
  method CheckOSPFAreaUpdate(before: seq<Command>, after: seq<Command>, raw: string) returns (accepted: bool)
    requires Treelike(before) && Treelike(after)
    ensures accepted <==> OspfId(raw).Some? && AreaUpdateAccepted(before, after, OspfId(raw).value)
    ensures forall id: Address :: Spells(raw, id) ==> (accepted <==> AreaUpdateAccepted(before, after, id))
  {
    hide OspfOk, AreaKept, OspfId, Spells;
    var wanted := OspfId(raw);
    forall id: Address | Spells(raw, id) ensures wanted == Some(id) { IdMeaning(raw, id); }
    if wanted.None? {
      return false;
    }
    var previous := OspfAreaRemaining(before, wanted.value);
    if previous.Err? {
      return false;
    }
    var current := OspfAreaRemaining(after, wanted.value);
    if current.Err? {
      return false;
    }
    if (previous.value.1 && !current.value.1) || previous.value.0 != current.value.0 {
      return false;
    }
    return true;
  }

  // ---- what acceptance means ----

  /** The comparison tolerates exactly a reordering of the kept area lines: every other
      line, with its ancestors, is in place. */
  lemma {:induction false} AreaUpdateExact(g: Grammar, d1: Doc, d2: Doc, id: Address)
    requires Closed(g, d1) && Closed(g, d2) && EndUnknown(g)
    ensures var c1, c2 := d1.commands, d2.commands;
            AreaKept(c1, id) == AreaKept(c2, id)
            <==> && Remaining(c1, AreaOwned(c1)) == Remaining(c2, AreaOwned(c2))
                 && multiset(AreaScopes(c1, |c1|, id)) == multiset(AreaScopes(c2, |c2|, id))
  {
    hide Remaining, AreaScopes, Sort, Closed, TotalOrder, AreaOwned, StringLeq;
    var c1, c2 := d1.commands, d2.commands;
    var a1, a2 := AreaScopes(c1, |c1|, id), AreaScopes(c2, |c2|, id);
    EndsKept(g, d1);
    EndsKept(g, d2);
    SplitAtEnd(Remaining(c1, AreaOwned(c1)), Sort(a1, StringLeq), Remaining(c2, AreaOwned(c2)), Sort(a2, StringLeq));
    StringOrder();
    SortCanonical(a1, a2, StringLeq);
  }

  lemma {:induction false} EndsKept(g: Grammar, d: Doc)
    requires Closed(g, d) && EndUnknown(g)
    ensures var r := Remaining(d.commands, AreaOwned(d.commands));
            && r != [] && r[|r| - 1] == "end"
            && forall k :: 0 <= k < |r| - 1 ==> r[k] != "end"
  {
    hide Remaining, Sound;
    EndRetained(g, d);
    RemainingEnds(g, d, AreaOwned(d.commands));
  }

  // ---- pairing up bindings ----

  /** Ownership is decided by the scope path, and never covers a VRF line. */
  ghost predicate Determined(d1: Doc, o1: nat -> bool, d2: Doc, o2: nat -> bool) {
    && (forall i: nat, j: nat ::
          i < |d1.commands| && j < |d2.commands| && Scope(d1.commands, i) == Scope(d2.commands, j) ==> o1(i) == o2(j))
    && (forall i: nat :: i < |d1.commands| && VrfLine(d1.commands[i]) ==> !o1(i))
    && (forall j: nat :: j < |d2.commands| && VrfLine(d2.commands[j]) ==> !o2(j))
  }

  ghost function Rank(d: Doc, owned: nat -> bool): seq<nat> { Retained(|d.commands|, owned) }

  /** Two parsed documents that a guard finds equal outside what it owns. */
  ghost predicate Matched(g: Grammar, d1: Doc, o1: nat -> bool, d2: Doc, o2: nat -> bool) {
    && Closed(g, d1) && Closed(g, d2) && Determined(d1, o1, d2, o2)
    && Paired(d1, Rank(d1, o1), d2, Rank(d2, o2))
  }

  lemma {:induction false} MatchedSymmetric(g: Grammar, d1: Doc, o1: nat -> bool, d2: Doc, o2: nat -> bool)
    requires Matched(g, d1, o1, d2, o2)
    ensures Matched(g, d2, o2, d1, o1)
  {
    hide Sound, Positions;
  }

  lemma {:induction false} Match(g: Grammar, d1: Doc, o1: nat -> bool, d2: Doc, o2: nat -> bool)
    requires Closed(g, d1) && Closed(g, d2) && Determined(d1, o1, d2, o2)
    requires Remaining(d1.commands, o1) == Remaining(d2.commands, o2)
    ensures Matched(g, d1, o1, d2, o2)
  {
    hide Closed, Determined, Paired, Remaining;
    RemainingPairs(d1, o1, d2, o2);
  }

  lemma {:induction false} OwnedAlike(d1: Doc, o1: nat -> bool, d2: Doc, o2: nat -> bool, i: nat, j: nat)
    requires Determined(d1, o1, d2, o2) && i < |d1.commands| && j < |d2.commands|
    requires Scope(d1.commands, i) == Scope(d2.commands, j)
    ensures o1(i) == o2(j)
  {
  }

  lemma {:induction false} PairedAt(d1: Doc, r1: seq<nat>, d2: Doc, r2: seq<nat>, k: nat)
    requires Paired(d1, r1, d2, r2) && k < |r1|
    ensures k < |r2| && r1[k] < |d1.commands| && r2[k] < |d2.commands|
    ensures Scope(d1.commands, r1[k]) == Scope(d2.commands, r2[k])
  {
  }

  /** A kept parent corresponds to the kept parent of the same rank. */
  lemma {:induction false} ParentsMatched(g: Grammar, d1: Doc, o1: nat -> bool, d2: Doc, o2: nat -> bool, k: nat,
        m: nat)
    requires Matched(g, d1, o1, d2, o2)
    requires k < |Rank(d1, o1)| && m < |Rank(d1, o1)|
    requires d1.commands[Rank(d1, o1)[k]].parent == Rank(d1, o1)[m]
    ensures m < |Rank(d2, o2)| && k < |Rank(d2, o2)|
    ensures d2.commands[Rank(d2, o2)[k]].parent == Rank(d2, o2)[m]
  {
    hide Sound, Scope, Determined, Paired, Retained;
    var r1, r2 := Rank(d1, o1), Rank(d2, o2);
    PairedAt(d1, r1, d2, r2, k);
    SameScope(g, d1, r1[k], d2, r2[k]);
    var q := d2.commands[r2[k]].parent;
    OwnedAlike(d1, o1, d2, o2, r1[m], q);
    RetainedUnowned(|d1.commands|, o1, m);
    var l := RankOf(|d2.commands|, o2, q);
    ParentsPaired(g, d1, r1, d2, r2, k, m, l);
  }

  /** Paired scopes agree on whether they leave the default VRF. */
  lemma {:induction false} VrfPairedOneWay(g: Grammar, d1: Doc, o1: nat -> bool, d2: Doc, o2: nat -> bool, m: nat)
    requires Matched(g, d1, o1, d2, o2) && m < |Rank(d1, o1)| && m < |Rank(d2, o2)|
    requires VrfScope(d1.commands, Rank(d1, o1)[m])
    ensures VrfScope(d2.commands, Rank(d2, o2)[m])
  {
    hide Sound, Scope, Paired, Retained;
    var r1, r2 := Rank(d1, o1), Rank(d2, o2);
    var i: nat :| i < |d1.commands| && VrfLine(d1.commands[i]) && d1.commands[i].parent == r1[m];
    assert !o1(i);
    var k := RankOf(|d1.commands|, o1, i);
    ParentsMatched(g, d1, o1, d2, o2, k, m);
    PairedAt(d1, r1, d2, r2, k);
    SameScope(g, d1, r1[k], d2, r2[k]);
    assert VrfLine(d2.commands[r2[k]]);
  }

  lemma {:induction false} VrfPaired(g: Grammar, d1: Doc, o1: nat -> bool, d2: Doc, o2: nat -> bool, m: nat)
    requires Matched(g, d1, o1, d2, o2) && m < |Rank(d1, o1)| && m < |Rank(d2, o2)|
    ensures VrfScope(d1.commands, Rank(d1, o1)[m]) <==> VrfScope(d2.commands, Rank(d2, o2)[m])
  {
    hide Matched, VrfScope, Rank;
    MatchedSymmetric(g, d1, o1, d2, o2);
    if VrfScope(d1.commands, Rank(d1, o1)[m]) { VrfPairedOneWay(g, d1, o1, d2, o2, m); }
    if VrfScope(d2.commands, Rank(d2, o2)[m]) { VrfPairedOneWay(g, d2, o2, d1, o1, m); }
  }

  /** The stanza of a kept binding is kept, or has no VRF line. */
  ghost predicate Settled(cs: seq<Command>, owned: nat -> bool, i: nat)
    requires i < |cs|
  {
    var p := cs[i].parent;
    0 <= p < |cs| && cs[p].parsed.kind.InterfaceStanza? && owned(p) ==> !VrfScope(cs, p)
  }

  lemma {:induction false} StanzaMatched(g: Grammar, d1: Doc, o1: nat -> bool, d2: Doc, o2: nat -> bool, k: nat)
    requires Matched(g, d1, o1, d2, o2) && k < |Rank(d1, o1)| && k < |Rank(d2, o2)|
    requires Settled(d1.commands, o1, Rank(d1, o1)[k]) && Settled(d2.commands, o2, Rank(d2, o2)[k])
    ensures var c1, c2 := d1.commands[Rank(d1, o1)[k]], d2.commands[Rank(d2, o2)[k]];
            && SameText(c1, c2) && c1.parent < |d1.commands| && c2.parent < |d2.commands|
            && (c1.parent >= 0 ==> SameText(d1.commands[c1.parent], d2.commands[c2.parent]))
            && (c1.parent >= 0 && d1.commands[c1.parent].parsed.kind.InterfaceStanza? ==>
                  (VrfScope(d1.commands, c1.parent) <==> VrfScope(d2.commands, c2.parent)))
  {
    hide Sound, Scope, VrfScope, Determined, Paired, Retained;
    var r1, r2 := Rank(d1, o1), Rank(d2, o2);
    PairedAt(d1, r1, d2, r2, k);
    SameScope(g, d1, r1[k], d2, r2[k]);
    var p, q := d1.commands[r1[k]].parent, d2.commands[r2[k]].parent;
    if p >= 0 {
      SameScope(g, d1, p, d2, q);
      OwnedAlike(d1, o1, d2, o2, p, q);
      if !o1(p) {
        var m := RankOf(|d1.commands|, o1, p);
        ParentsMatched(g, d1, o1, d2, o2, k, m);
        VrfPaired(g, d1, o1, d2, o2, m);
      }
    }
  }

  lemma {:induction false} ContributionPaired(g: Grammar, d1: Doc, o1: nat -> bool, d2: Doc, o2: nat -> bool, k: nat,
        a: Address)
    requires Matched(g, d1, o1, d2, o2) && k < |Rank(d1, o1)| && k < |Rank(d2, o2)|
    requires Settled(d1.commands, o1, Rank(d1, o1)[k]) && Settled(d2.commands, o2, Rank(d2, o2)[k])
    ensures Contribution(d1.commands, Rank(d1, o1)[k], a) == Contribution(d2.commands, Rank(d2, o2)[k], a)
  {
    hide Matched, Rank, VrfScope, OspfId, Settled;
    StanzaMatched(g, d1, o1, d2, o2, k);
  }

  // ---- bindings as sums of contributions ----

  ghost function BoundAt(cs: seq<Command>, at: seq<nat>, a: Address): seq<string>
    requires Positions(at, |cs|)
  {
    if at == [] then []
    else BoundAt(cs, at[..|at| - 1], a) + Contribution(cs, at[|at| - 1], a)
  }

  /** Every name an owned command contributes is one that `keep` drops. */
  ghost predicate OwnedDropped(cs: seq<Command>, owned: nat -> bool, a: Address, keep: string -> bool) {
    forall i: nat :: i < |cs| && owned(i) ==> Filter(Contribution(cs, i, a), keep) == []
  }

  lemma {:induction false} BoundRetained(cs: seq<Command>, n: nat, owned: nat -> bool, a: Address, keep: string -> bool)
    requires n <= |cs| && OwnedDropped(cs, owned, a, keep)
    ensures Positions(Retained(n, owned), |cs|)
    ensures Filter(Bound(cs, n, a), keep) == Filter(BoundAt(cs, Retained(n, owned), a), keep)
  {
    hide Filter, Contribution, Positions;
    PositionsWiden(Retained(n, owned), n, |cs|);
    if n > 0 {
      BoundRetained(cs, n - 1, owned, a, keep);
      var r, c := Retained(n - 1, owned), Contribution(cs, n - 1, a);
      FilterAppend(Bound(cs, n - 1, a), c, keep);
      if owned(n - 1) {
        assert Filter(c, keep) == [] && Retained(n, owned) == r;
      } else {
        assert Retained(n, owned) == r + [n - 1];
        BoundAtSnoc(cs, r, n - 1, a);
        FilterAppend(BoundAt(cs, r, a), c, keep);
      }
    }
  }

  lemma {:induction false} PositionsWiden(at: seq<nat>, n: nat, m: nat)
    requires Positions(at, n) && n <= m
    ensures Positions(at, m)
  {
  }

  lemma {:induction false} BoundAtSnoc(cs: seq<Command>, r: seq<nat>, i: nat, a: Address)
    requires i < |cs| && Positions(r, i)
    ensures Positions(r, |cs|) && Positions(r + [i], |cs|)
    ensures BoundAt(cs, r + [i], a) == BoundAt(cs, r, a) + Contribution(cs, i, a)
  {
    assert (r + [i])[..|r|] == r;
  }

  ghost predicate AllSettled(cs: seq<Command>, owned: nat -> bool) {
    forall i: nat :: i < |cs| && !owned(i) ==> Settled(cs, owned, i)
  }

  lemma {:induction false} BoundMatched(g: Grammar, d1: Doc, o1: nat -> bool, d2: Doc, o2: nat -> bool, k: nat,
        a: Address)
    requires Matched(g, d1, o1, d2, o2) && AllSettled(d1.commands, o1) && AllSettled(d2.commands, o2)
    requires k <= |Rank(d1, o1)| && k <= |Rank(d2, o2)|
    ensures Positions(Rank(d1, o1)[..k], |d1.commands|) && Positions(Rank(d2, o2)[..k], |d2.commands|)
    ensures BoundAt(d1.commands, Rank(d1, o1)[..k], a) == BoundAt(d2.commands, Rank(d2, o2)[..k], a)
  {
    hide Matched, Contribution, Settled, Retained;
    if k > 0 {
      BoundMatched(g, d1, o1, d2, o2, k - 1, a);
      var r1, r2 := Rank(d1, o1), Rank(d2, o2);
      assert r1[..k][..k - 1] == r1[..k - 1] && r2[..k][..k - 1] == r2[..k - 1];
      RetainedUnowned(|d1.commands|, o1, k - 1);
      RetainedUnowned(|d2.commands|, o2, k - 1);
      ContributionPaired(g, d1, o1, d2, o2, k - 1, a);
    }
  }

  /** Matched documents bind the same interfaces, in the same order, apart from dropped names. */
  lemma {:induction false} BindingsMatched(g: Grammar, d1: Doc, o1: nat -> bool, d2: Doc, o2: nat -> bool, a: Address,
        keep: string -> bool)
    requires Matched(g, d1, o1, d2, o2) && AllSettled(d1.commands, o1) && AllSettled(d2.commands, o2)
    requires OwnedDropped(d1.commands, o1, a, keep) && OwnedDropped(d2.commands, o2, a, keep)
    ensures Filter(Bound(d1.commands, |d1.commands|, a), keep) == Filter(Bound(d2.commands, |d2.commands|, a), keep)
  {
    hide AllSettled, OwnedDropped, Retained, Closed, Determined, Filter, Bound, BoundAt;
    var r1, r2 := Rank(d1, o1), Rank(d2, o2);
    BoundRetained(d1.commands, |d1.commands|, o1, a, keep);
    BoundRetained(d2.commands, |d2.commands|, o2, a, keep);
    BoundMatched(g, d1, o1, d2, o2, |r1|, a);
    assert r1[..|r1|] == r1 && r2[..|r1|] == r2;
  }

  lemma {:induction false} FilterAll<T(!new)>(s: seq<T>, keep: T -> bool)
    requires forall x :: keep(x)
    ensures Filter(s, keep) == s
  {
    if s != [] { FilterAll(s[1..], keep); }
  }

  // ---- the area guard ----

  lemma {:induction false} AreaDetermined(g: Grammar, d1: Doc, d2: Doc)
    requires Closed(g, d1) && Closed(g, d2)
    ensures Determined(d1, AreaOwned(d1.commands), d2, AreaOwned(d2.commands))
  {
    hide Closed, Scope;
    forall i: nat, j: nat | i < |d1.commands| && j < |d2.commands| && Scope(d1.commands, i) == Scope(d2.commands, j)
      ensures AreaOwnedAt(d1.commands, i) == AreaOwnedAt(d2.commands, j)
    {
      SameScope(g, d1, i, d2, j);
      ParentKind(g, d1, i, d2, j);
      if d1.commands[i].parent >= 0 {
        SameScope(g, d1, d1.commands[i].parent, d2, d2.commands[j].parent);
        ParentKind(g, d1, d1.commands[i].parent, d2, d2.commands[j].parent);
      }
    }
  }

  lemma {:induction false} ParentKind(g: Grammar, d1: Doc, i: nat, d2: Doc, j: nat)
    requires Closed(g, d1) && Closed(g, d2) && i < |d1.commands| && j < |d2.commands|
    requires SameText(d1.commands[i], d2.commands[j])
    ensures DefaultRouter(d1.commands[i]) == DefaultRouter(d2.commands[j])
  {
    hide FromText, Whole, Partial, Chain;
    ClosedSound(g, d1);
    ClosedSound(g, d2);
    assert NearestParent(d1.commands, i) && NearestParent(d2.commands, j);
  }

  lemma {:induction false} AreaScopesHave(cs: seq<Command>, n: nat, id: Address, i: nat)
    requires i < n <= |cs| && KeptAreaLine(cs, i, id)
    ensures Scope(cs, i) in AreaScopes(cs, n, id)
  {
    hide KeptAreaLine, Scope;
    if i < n - 1 { AreaScopesHave(cs, n - 1, id, i); }
  }

  lemma {:induction false} AreaScopesFrom(cs: seq<Command>, n: nat, id: Address, s: string) returns (i: nat)
    requires n <= |cs| && s in AreaScopes(cs, n, id)
    ensures i < n && KeptAreaLine(cs, i, id) && Scope(cs, i) == s
  {
    hide KeptAreaLine, Scope;
    if KeptAreaLine(cs, n - 1, id) && Scope(cs, n - 1) == s {
      i := n - 1;
    } else {
      i := AreaScopesFrom(cs, n - 1, id, s);
    }
  }

  lemma {:induction false} AreaIdsKept(g: Grammar, d1: Doc, d2: Doc, id: Address, a: Address)
    requires Closed(g, d1) && Closed(g, d2) && a != id && a in AreaIds(d1.commands, |d1.commands|)
    requires multiset(AreaScopes(d1.commands, |d1.commands|, id)) ==
             multiset(AreaScopes(d2.commands, |d2.commands|, id))
    ensures a in AreaIds(d2.commands, |d2.commands|)
  {
    hide Closed, Scope, AreaScopes, AreaLine, OspfId;
    var c1, c2 := d1.commands, d2.commands;
    var i: nat :| i < |c1| && AreaLine(c1, i) && OspfId(c1[i].parsed.name) == Some(a);
    AreaScopesHave(c1, |c1|, id, i);
    assert Scope(c1, i) in multiset(AreaScopes(c2, |c2|, id));
    var j := AreaScopesFrom(c2, |c2|, id, Scope(c1, i));
    SameScope(g, d1, i, d2, j);
    assert AreaLine(c2, j) && OspfId(c2[j].parsed.name) == Some(a);
  }

  lemma {:induction false} AreaSettled(cs: seq<Command>, a: Address, keep: string -> bool)
    ensures AllSettled(cs, AreaOwned(cs)) && OwnedDropped(cs, AreaOwned(cs), a, keep)
  {
    hide VrfScope, OspfId;
  }

  /** An accepted area update leaves every other area declared as before, and every
      interface bound as before, however the area lines were reordered. */
  lemma {:induction false} AreaUpdateSound(g: Grammar, d1: Doc, d2: Doc, id: Address)
    requires Closed(g, d1) && Closed(g, d2) && EndUnknown(g)
    requires AreaUpdateAccepted(d1.commands, d2.commands, id)
    ensures var before, after := AreasOf(d1.commands), AreasOf(d2.commands);
            && (forall a :: a != id ==> (a in before <==> a in after))
            && (forall a :: a in before && a in after ==> before[a] == after[a])
  {
    hide Closed, OspfOk, Remaining, AreaScopes, AreaIds, Bound, HasProcess, AreaKept;
    var c1, c2 := d1.commands, d2.commands;
    AreaUpdateExact(g, d1, d2, id);
    forall a | a != id
      ensures a in AreaIds(c1, |c1|) <==> a in AreaIds(c2, |c2|)
    {
      if a in AreaIds(c1, |c1|) { AreaIdsKept(g, d1, d2, id, a); }
      if a in AreaIds(c2, |c2|) { AreaIdsKept(g, d2, d1, id, a); }
    }
    forall a: Address
      ensures Bound(c1, |c1|, a) == Bound(c2, |c2|, a)
    {
      SameBindings(g, d1, d2, a);
    }
  }

  lemma {:induction false} SameBindings(g: Grammar, d1: Doc, d2: Doc, a: Address)
    requires Closed(g, d1) && Closed(g, d2)
    requires Remaining(d1.commands, AreaOwned(d1.commands)) == Remaining(d2.commands, AreaOwned(d2.commands))
    ensures Bound(d1.commands, |d1.commands|, a) == Bound(d2.commands, |d2.commands|, a)
  {
    hide Closed, Remaining, Bound, AllSettled, OwnedDropped, Matched, Determined, AreaOwned, Filter;
    var o1, o2 := AreaOwned(d1.commands), AreaOwned(d2.commands);
    var keep := (x: string) => true;
    AreaDetermined(g, d1, d2);
    Match(g, d1, o1, d2, o2);
    AreaSettled(d1.commands, a, keep);
    AreaSettled(d2.commands, a, keep);
    BindingsMatched(g, d1, o1, d2, o2, a, keep);
    FilterAll(Bound(d1.commands, |d1.commands|, a), keep);
    FilterAll(Bound(d2.commands, |d2.commands|, a), keep);
  }
}
