/** Area identifiers: a number and its dotted quad are the same area, wherever they stand. */
module OspfSpelling {
  import opened Prelude
  import opened Sorting
  import opened Text
  import opened Decimal
  import opened Native
  import opened Ospf

  /** The text is the address itself, or its number in decimal. */
  predicate Spells(raw: string, id: Address) {
    raw == WriteIPv4(id) || (Numeral(raw) && Value(raw) == id)
  }

  /** Texts denote exactly the area they spell. */
  lemma {:induction false} IdMeaning(raw: string, id: Address)
    ensures OspfId(raw) == Some(id) <==> Spells(raw, id)
  {
    hide ParseIPv4, WriteIPv4, Value;
    ParseWriteIPv4(id);
    if ParseIPv4(raw).Some? { IPv4Unique(raw); }
    if Numeral(raw) { NumeralNoQuad(raw); }
  }

  /** Every area has both spellings. */
  lemma {:induction false} BothSpellings(id: Address)
    ensures Spells(WriteIPv4(id), id) && Spells(Write(id), id)
  {
    hide WriteIPv4;
  }

  /** The command, or the same one naming its area by another spelling. */
  ghost predicate Renamed(c: Command, d: Command) {
    && c.parent == d.parent
    && (c.parsed == d.parsed
        || ((c.parsed.kind.OspfArea? || c.parsed.kind.OspfBinding?)
            && d.parsed == c.parsed.(name := d.parsed.name)
            && exists id: Address :: Spells(c.parsed.name, id) && Spells(d.parsed.name, id)))
  }

  ghost predicate AllRenamed(cs: seq<Command>, ds: seq<Command>) {
    |cs| == |ds| && forall i :: 0 <= i < |cs| ==> Renamed(cs[i], ds[i])
  }

  /** What the extractor looks at, with areas by their identity. */
  ghost predicate Alike(c: Command, d: Command) {
    && c.parent == d.parent && c.parsed.kind == d.parsed.kind && c.parsed.valid == d.parsed.valid
    && c.parsed.options == d.parsed.options
    && (if c.parsed.kind.OspfArea? || c.parsed.kind.OspfBinding? then OspfId(c.parsed.name) == OspfId(d.parsed.name)
        else c.parsed.name == d.parsed.name)
  }

  lemma {:induction false} RenamedAlike(c: Command, d: Command)
    requires Renamed(c, d)
    ensures Alike(c, d)
  {
    hide OspfId, Spells;
    if c.parsed != d.parsed {
      var id: Address :| Spells(c.parsed.name, id) && Spells(d.parsed.name, id);
      IdMeaning(c.parsed.name, id);
      IdMeaning(d.parsed.name, id);
    }
  }

  ghost predicate AllAlike(cs: seq<Command>, ds: seq<Command>) {
    |cs| == |ds| && forall i :: 0 <= i < |cs| ==> Alike(cs[i], ds[i])
  }

  lemma {:induction false} LinesAlike(cs: seq<Command>, ds: seq<Command>, i: nat)
    requires AllAlike(cs, ds) && i < |cs|
    ensures AreaLine(cs, i) == AreaLine(ds, i)
    ensures DefaultRouter(cs[i]) == DefaultRouter(ds[i]) && VrfLine(cs[i]) == VrfLine(ds[i])
    ensures VrfScope(cs, cs[i].parent) == VrfScope(ds, ds[i].parent)
    ensures BindingLine(cs, i) == BindingLine(ds, i)
    ensures BindingLine(cs, i) ==> cs[cs[i].parent].parsed.name == ds[ds[i].parent].parsed.name
    ensures BindingLine(cs, i) ==> cs[cs[i].parent].parsed.valid == ds[ds[i].parent].parsed.valid
  {
    hide OspfId;
    assert Alike(cs[i], ds[i]);
    var p := cs[i].parent;
    if 0 <= p < |cs| { assert Alike(cs[p], ds[p]); }
    assert forall j :: 0 <= j < |cs| ==> Alike(cs[j], ds[j]);
    assert forall j :: 0 <= j < |cs| ==> VrfLine(cs[j]) == VrfLine(ds[j]) && cs[j].parent == ds[j].parent;
  }

  lemma {:induction false} IdsAlike(cs: seq<Command>, ds: seq<Command>)
    requires AllAlike(cs, ds)
    ensures AreaIds(cs, |cs|) == AreaIds(ds, |ds|)
  {
    hide OspfId, AreaLine;
    forall i: nat | i < |cs|
      ensures AreaLine(cs, i) == AreaLine(ds, i)
      ensures AreaLine(cs, i) ==> OspfId(cs[i].parsed.name) == OspfId(ds[i].parsed.name)
    {
      LinesAlike(cs, ds, i);
      AreaNamed(cs, ds, i);
    }
  }

  lemma {:induction false} AreaNamed(cs: seq<Command>, ds: seq<Command>, i: nat)
    requires AllAlike(cs, ds) && i < |cs|
    ensures AreaLine(cs, i) || BindingLine(cs, i) ==> OspfId(cs[i].parsed.name) == OspfId(ds[i].parsed.name)
    ensures cs[i].parsed.valid == ds[i].parsed.valid && cs[i].parsed.options == ds[i].parsed.options
    ensures cs[i].parent == ds[i].parent && cs[i].parsed.kind == ds[i].parsed.kind
    ensures cs[i].parsed.kind.OspfRouter? ==> cs[i].parsed.name == ds[i].parsed.name
  {
    hide OspfId;
    assert Alike(cs[i], ds[i]);
  }

  lemma {:induction false} BoundAlike(cs: seq<Command>, ds: seq<Command>, n: nat, a: Address)
    requires AllAlike(cs, ds) && n <= |cs|
    ensures Bound(cs, n, a) == Bound(ds, n, a)
  {
    hide OspfId, BindingLine, AllAlike;
    if n > 0 {
      BoundAlike(cs, ds, n - 1, a);
      AllAlikeSize(cs, ds);
      LinesAlike(cs, ds, n - 1);
      AreaNamed(cs, ds, n - 1);
    }
  }

  lemma {:induction false} AllAlikeSize(cs: seq<Command>, ds: seq<Command>)
    requires AllAlike(cs, ds)
    ensures |cs| == |ds|
  {
  }

  lemma {:induction false} FirstAlike(cs: seq<Command>, ds: seq<Command>, i: nat)
    requires AllAlike(cs, ds) && i < |cs| && FirstOk(cs, i)
    ensures FirstOk(ds, i)
  {
    hide OspfId, AreaLine, DefaultRouter, VrfLine, Alike, VrfScope, BindingLine;
    forall j: nat | j < |cs|
      ensures AreaLine(cs, j) == AreaLine(ds, j) && DefaultRouter(cs[j]) == DefaultRouter(ds[j])
      ensures VrfLine(cs[j]) == VrfLine(ds[j]) && cs[j].parent == ds[j].parent
      ensures Declares(cs, j, OspfId(cs[i].parsed.name)) == Declares(ds, j, OspfId(cs[i].parsed.name))
    {
      LinesAlike(cs, ds, j);
      AreaNamed(cs, ds, j);
    }
    AreaNamed(cs, ds, i);
  }

  lemma {:induction false} BindingAlike(cs: seq<Command>, ds: seq<Command>, i: nat)
    requires AllAlike(cs, ds) && i < |cs| && BindingOk(cs, i)
    ensures BindingOk(ds, i)
  {
    hide OspfId, AreaIds, Alike, VrfScope, AreaLine;
    forall j: nat | j < |cs|
      ensures BindingLine(cs, j) == BindingLine(ds, j)
      ensures BindingLine(cs, j) ==> cs[cs[j].parent].parsed.name == ds[ds[j].parent].parsed.name
    {
      LinesAlike(cs, ds, j);
    }
    LinesAlike(cs, ds, i);
    AreaNamed(cs, ds, i);
    IdsAlike(cs, ds);
  }

  lemma {:induction false} AlikeSymmetric(cs: seq<Command>, ds: seq<Command>)
    requires AllAlike(cs, ds)
    ensures AllAlike(ds, cs)
  {
    hide OspfId;
  }

  lemma {:induction false} OkAlike(cs: seq<Command>, ds: seq<Command>)
    requires AllAlike(cs, ds) && OspfOk(cs)
    ensures OspfOk(ds)
  {
    hide AllAlike, FirstOk, BindingOk;
    AllAlikeSize(cs, ds);
    forall i: nat | i < |ds| ensures FirstOk(ds, i) && BindingOk(ds, i) {
      FirstAlike(cs, ds, i);
      BindingAlike(cs, ds, i);
    }
  }

  /** Respelling the areas of any lines changes neither whether the areas can be read nor
      what is read. */
  lemma {:induction false} RenamedAreas(cs: seq<Command>, ds: seq<Command>)
    requires AllRenamed(cs, ds)
    ensures OspfOk(cs) <==> OspfOk(ds)
    ensures AreasOf(cs) == AreasOf(ds)
  {
    hide Renamed, Alike, OspfOk, AreaIds, Bound, Sort;
    forall i | 0 <= i < |cs| ensures Alike(cs[i], ds[i]) { RenamedAlike(cs[i], ds[i]); }
    AlikeSymmetric(cs, ds);
    if OspfOk(cs) { OkAlike(cs, ds); }
    if OspfOk(ds) { OkAlike(ds, cs); }
    IdsAlike(cs, ds);
    forall a: Address ensures Bound(cs, |cs|, a) == Bound(ds, |ds|, a) { BoundAlike(cs, ds, |cs|, a); }
  }

  /** The areas read are the ones area lines of the default process spell, and an interface
      is in the area its binding spells. */
  lemma {:induction false} AreasAreSpelled(cs: seq<Command>, id: Address)
    ensures id in AreasOf(cs) <==> exists i: nat :: i < |cs| && AreaLine(cs, i) && Spells(cs[i].parsed.name, id)
    ensures forall x :: id in AreasOf(cs) ==>
              (x in AreasOf(cs)[id] <==>
               exists i: nat :: i < |cs| && BindingLine(cs, i) && Spells(cs[i].parsed.name, id)
                                && cs[cs[i].parent].parsed.name == x)
  {
    hide OspfId, Spells, AreaLine, VrfScope, Sort, Bound;
    forall i: nat | i < |cs| ensures OspfId(cs[i].parsed.name) == Some(id) <==> Spells(cs[i].parsed.name, id) {
      IdMeaning(cs[i].parsed.name, id);
    }
    var bound := Bound(cs, |cs|, id);
    forall x ensures x in bound <==> x in Sort(bound, StringLeq) {
      assert x in bound <==> x in multiset(bound);
      assert x in Sort(bound, StringLeq) <==> x in multiset(Sort(bound, StringLeq));
    }
    forall x
      ensures x in bound <==>
              exists i: nat :: i < |cs| && BindingLine(cs, i) && Spells(cs[i].parsed.name, id)
                               && cs[cs[i].parent].parsed.name == x
    {
      BoundMember(cs, |cs|, id, x);
    }
  }

  lemma {:induction false} BoundMember(cs: seq<Command>, n: nat, a: Address, x: string)
    requires n <= |cs|
    ensures x in Bound(cs, n, a) <==>
            exists i: nat :: i < n && BindingLine(cs, i) && OspfId(cs[i].parsed.name) == Some(a)
                             && cs[cs[i].parent].parsed.name == x
  {
    hide OspfId, VrfScope;
    if n > 0 { BoundMember(cs, n - 1, a, x); }
  }

  /** Interfaces are listed in byte order. */
  lemma {:induction false} InterfacesSorted(cs: seq<Command>, id: Address, i: nat, j: nat)
    requires id in AreasOf(cs) && i < j < |AreasOf(cs)[id]|
    ensures Precedes(AreasOf(cs)[id][i], AreasOf(cs)[id][j])
  {
    hide Sort, StringLeq, Bound, TotalOrder, AreaIds, Precedes;
    StringOrder();
    Preordered(StringLeq);
    SortSorted(Bound(cs, |cs|, id), StringLeq);
    StringLeqMeaning(AreasOf(cs)[id][i], AreasOf(cs)[id][j]);
  }
}
