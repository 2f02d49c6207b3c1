/** Binding an access list to one interface, family and direction: prune inactive REST
    keys, unbind or replace, and prune again. */
module AccessGroup {
  import opened Prelude
  import opened Updating
  import opened CheckedWrites

  /** The ACL bound natively ("" for none), and the names of the slot's REST keys. */
  datatype Binding = Binding(acl: string, rest: seq<string>)

  datatype Content = Bind(name: string) | Unbind(name: string)

  type BindingDevice<!S> = Device<S, Content, Binding, ()>

  type Course<S> = Progress<S, Content, Binding>

  /** The readbacks that show the wanted native binding. */
  function Shows(wanted: string): (r: Binding -> bool) { (b: Binding) => b.acl == wanted }

  /** The key just deleted must be gone. */
  function Gone<S>(p: Course<S>, key: string): (r: Course<S>) {
    if p.failure.None? && key in p.current.rest then p.(failure := Some(Stopped(None, Diverged))) else p
  }

  function PruneOne<S>(d: BindingDevice<S>, p: Course<S>, stale: string, unowned: seq<string>): (r: Course<S>) {
    if p.failure.Some? || stale == p.current.acl then p
    else Gone(Checked(d, p, Request("DELETE", Unbind(stale)), true, Judge(Shows(p.current.acl), unowned)), stale)
  }

  function Pruned<S>(d: BindingDevice<S>, p: Course<S>, stales: seq<string>, unowned: seq<string>): (r: Course<S>)
    decreases |stales|
  {
    if stales == [] then p else Pruned(d, PruneOne(d, p, stales[0], unowned), stales[1..], unowned)
  }

  function Unbound<S>(d: BindingDevice<S>, p: Course<S>, name: string, unowned: seq<string>): (r: Course<S>) {
    if p.failure.Some? || p.current.acl == "" || name != "" then p
    else Gone(Checked(d, p, Request("DELETE", Unbind(p.current.acl)), true, Judge(Shows(""), unowned)), p.current.acl)
  }

  function Bound<S>(d: BindingDevice<S>, p: Course<S>, name: string, unowned: seq<string>): (r: Course<S>) {
    if p.failure.Some? || name == "" || (p.current.acl == name && p.current.rest == [name]) then p
    else Checked(d, p, Request("PATCH", Bind(name)), false, Judge(Shows(name), unowned))
  }

  function Keys(name: string): (r: seq<string>) { if name == "" then [] else [name] }

  function Settled<S>(p: Course<S>, name: string): (r: Course<S>) {
    if p.failure.None? && p.current != Binding(name, Keys(name)) then p.(failure := Some(Stopped(None, Diverged)))
      else p
  }

  function Steps<S>(d: BindingDevice<S>, p: Course<S>, name: string, unowned: seq<string>): (r: Course<S>) {
    var p1 := Pruned(d, p, p.current.rest, unowned);
    var p3 := Bound(d, Unbound(d, p1, name, unowned), name, unowned);
    var p4 := if p3.failure.Some? then p3 else Pruned(d, p3, p3.current.rest, unowned);
    Settled(p4, name)
  }

  /** The whole callback; `parents` says whether the ACL and the interface exist. */
  function Applied<S>(d: BindingDevice<S>, state: S, name: string, parents: View<Binding> -> bool): (r: Course<S>) {
    var (s, view) := AfterLook(d, Fresh(state));
    if view.None? then Progress(s, Binding("", []), [], Some(Stopped(None, Unreadable)))
    else if name != "" && !parents(view.value) then Progress(s, view.value.owned, [], Some(Declined))
    else Steps(d, Progress(s, view.value.owned, [], None), name, view.value.unowned)
  }

  // ---- the writer ----

  /** Deletes every key but the bound ACL's, checking that each is gone. */
  method Prune<S>(d: BindingDevice<S>, w: Writer<S, Content, Binding>) returns (failure: Option<Failure>)
    modifies w, w.update
    ensures w.Now(failure) == Pruned(d, old(w.Now(None)), old(w.current.rest), w.unowned)
  {
    hide Checked;
    var stales := w.current.rest;
    failure := None;
    for i := 0 to |stales|
      invariant failure.None?
      invariant Pruned(d, old(w.Now(None)), stales, w.unowned) == Pruned(d, w.Now(None), stales[i..], w.unowned)
    {
      var stale := stales[i];
      assert stales[i..][1..] == stales[i + 1..];
      if stale == w.current.acl {
        continue;
      }
      failure := w.Send(d, Request("DELETE", Unbind(stale)), true, Judge(Shows(w.current.acl), w.unowned));
      if failure.None? && stale in w.current.rest {
        failure := Some(Stopped(None, Diverged));
      }
      if failure.Some? {
        PruneStuck(d, w.Now(failure), stales[i + 1..], w.unowned);
        return;
      }
    }
  }

  lemma {:induction false} PruneStuck<S>(d: BindingDevice<S>, p: Course<S>, stales: seq<string>, unowned: seq<string>)
    requires p.failure.Some?
    ensures Pruned(d, p, stales, unowned) == p
    decreases |stales|
  {
    if stales != [] { PruneStuck(d, p, stales[1..], unowned); }
  }

  method Apply<S>(d: BindingDevice<S>, update: Update<S, Content>, name: string, parents: View<Binding> -> bool)
    returns (current: Binding, failure: Option<Failure>, ghost accepted: seq<View<Binding>>)
    requires update.Now() == Fresh(update.state)
    modifies update
    ensures Progress(update.Now(), current, accepted, failure) == Applied(d, old(update.state), name, parents)
  {
    hide Steps;
    accepted := [];
    var view := update.Look(d);
    if view.None? {
      return Binding("", []), Some(Stopped(None, Unreadable)), [];
    }
    if name != "" && !parents(view.value) {
      return view.value.owned, Some(Declined), [];
    }
    var w := new Writer(update, view.value);
    failure := WriteAll(d, w, name);
    return w.current, failure, w.accepted;
  }

  method WriteAll<S>(d: BindingDevice<S>, w: Writer<S, Content, Binding>, name: string)
    returns (failure: Option<Failure>)
    modifies w, w.update
    ensures w.Now(failure) == Steps(d, old(w.Now(None)), name, w.unowned)
  {
    hide Checked, Pruned;
    failure := Prune(d, w);
    if failure.Some? {
      return;
    }
    if w.current.acl != "" && name == "" {
      var previous := w.current.acl;
      failure := w.Send(d, Request("DELETE", Unbind(previous)), true, Judge(Shows(""), w.unowned));
      if failure.None? && previous in w.current.rest {
        failure := Some(Stopped(None, Diverged));
      }
      if failure.Some? {
        return;
      }
    }
    if name != "" && (w.current.acl != name || w.current.rest != [name]) {
      failure := w.Send(d, Request("PATCH", Bind(name)), false, Judge(Shows(name), w.unowned));
      if failure.Some? {
        return;
      }
    }
    failure := Prune(d, w);
    if failure.Some? {
      return;
    }
    if w.current.acl != name || w.current.rest != Keys(name) {
      failure := Some(Stopped(None, Diverged));
    }
  }

  // ---- on an arbitrary device ----

  /** Deletions name a key other than the bound ACL's, unless the slot is to be cleared. */
  function Spares(name: string): (r: (Request<Content>, Binding) -> bool) {
    (request: Request<Content>, before: Binding) =>
      match request.content
      case Bind(n) => request.verb == "PATCH" && n == name && name != ""
      case Unbind(n) => request.verb == "DELETE" && (n != before.acl || name == "")
  }

  /** A readback shows the binding it was before, or what the mutation is for: a new name,
      or none when the slot is to be cleared. */
  function Moves(name: string): (r: (Request<Content>, Binding, Binding) -> bool) {
    (request: Request<Content>, before: Binding, after: Binding) =>
      after.acl == if request.content.Bind? || request.content.name == before.acl then name else before.acl
  }

  ghost predicate Kept<S>(p: Course<S>, start: Binding, name: string, unowned: seq<string>) {
    Careful(p, start, unowned, Spares(name), Moves(name))
  }

  lemma {:induction false} SentKept<S>(d: BindingDevice<S>, p: Course<S>, start: Binding, name: string,
        unowned: seq<string>, request: Request<Content>, allowMissing: bool, wanted: string)
    requires Kept(p, start, name, unowned)
    requires p.failure.None? ==>
               Spares(name)(request, p.current) && Moves(name)(request, p.current, Binding(wanted, []))
    ensures Kept(Checked(d, p, request, allowMissing, Judge(Shows(wanted), unowned)), start, name, unowned)
  {
    CheckedCareful(d, p, start, unowned, Spares(name), Moves(name), request, allowMissing,
      Judge(Shows(wanted), unowned));
  }

  lemma {:induction false} GoneKept<S>(p: Course<S>, start: Binding, name: string, unowned: seq<string>, key: string)
    requires Kept(p, start, name, unowned)
    ensures Kept(Gone(p, key), start, name, unowned)
  {
  }

  lemma {:induction false} PrunedKept<S>(d: BindingDevice<S>, p: Course<S>, start: Binding, name: string,
        unowned: seq<string>, stales: seq<string>)
    requires Kept(p, start, name, unowned)
    ensures Kept(Pruned(d, p, stales, unowned), start, name, unowned)
    decreases |stales|
  {
    hide Kept, Checked;
    if stales != [] {
      var request := Request("DELETE", Unbind(stales[0]));
      if p.failure.None? && stales[0] != p.current.acl {
        SentKept(d, p, start, name, unowned, request, true, p.current.acl);
        GoneKept(Checked(d, p, request, true, Judge(Shows(p.current.acl), unowned)), start, name, unowned, stales[0]);
      }
      PrunedKept(d, PruneOne(d, p, stales[0], unowned), start, name, unowned, stales[1..]);
    }
  }

  lemma {:induction false} StepsKept<S>(d: BindingDevice<S>, p: Course<S>, start: Binding, name: string,
        unowned: seq<string>)
    requires Kept(p, start, name, unowned)
    ensures Kept(Steps(d, p, name, unowned), start, name, unowned)
  {
    hide Kept, Checked, Pruned;
    PrunedKept(d, p, start, name, unowned, p.current.rest);
    var p1 := Pruned(d, p, p.current.rest, unowned);
    if p1.failure.None? && p1.current.acl != "" && name == "" {
      var request := Request("DELETE", Unbind(p1.current.acl));
      SentKept(d, p1, start, name, unowned, request, true, "");
      GoneKept(Checked(d, p1, request, true, Judge(Shows(""), unowned)), start, name, unowned, p1.current.acl);
    }
    var p2 := Unbound(d, p1, name, unowned);
    if name != "" {
      SentKept(d, p2, start, name, unowned, Request("PATCH", Bind(name)), false, name);
    }
    var p3 := Bound(d, p2, name, unowned);
    PrunedKept(d, p3, start, name, unowned, p3.current.rest);
    var p4 := if p3.failure.Some? then p3 else Pruned(d, p3, p3.current.rest, unowned);
    SettledKept(p4, start, name, unowned);
  }

  lemma {:induction false} SettledKept<S>(p: Course<S>, start: Binding, name: string, unowned: seq<string>)
    requires Kept(p, start, name, unowned)
    ensures Kept(Settled(p, name), start, name, unowned)
  {
  }

  lemma {:induction false} OneMove(request: Request<Content>, before: Binding, after: Binding, name: string)
    requires Moves(name)(request, before, after)
    ensures after.acl == before.acl || after.acl == name
  {
  }

  /** Where each accepted readback moves the binding as said, it is the old one or the
      requested one throughout. */
  lemma {:induction false} OldOrNew(sent: seq<Sent<Content>>, start: Binding, accepted: seq<View<Binding>>,
        unowned: seq<string>, name: string, i: nat)
    requires Effective(sent, start, accepted, unowned, Moves(name)) && i <= |accepted|
    ensures var b := Preceding(start, accepted, i); b.acl == start.acl || b.acl == name
  {
    hide Effective, Moves;
    if i > 0 {
      OldOrNew(sent, start, accepted, unowned, name, i - 1);
      EffectiveAt(sent, start, accepted, unowned, Moves(name), i - 1);
      OneMove(sent[i - 1].request, Preceding(start, accepted, i - 1), accepted[i - 1].owned, name);
    }
  }

  /** Whatever the device answers: every readback accepted follows from the one before it and
      its mutation; replacing one ACL by another never passes through an accepted state
      without a native binding; no deletion names the bound ACL unless the slot is to be
      cleared; success leaves the requested binding with exactly its REST key. */
  lemma {:induction false} ArbitraryDevice<S>(d: BindingDevice<S>, state: S, name: string,
        parents: View<Binding> -> bool)
    requires AfterLook(d, Fresh<S, Content>(state)).1.Some?
    ensures var r := Applied(d, state, name, parents);
            var before := AfterLook(d, Fresh<S, Content>(state)).1.value;
            && Careful(r, before.owned, before.unowned, Spares(name), Moves(name))
            && (forall i :: 0 <= i < |r.accepted| ==>
                  r.accepted[i].owned.acl == before.owned.acl || r.accepted[i].owned.acl == name)
            && (before.owned.acl != "" && name != "" ==>
                  forall i :: 0 <= i < |r.accepted| ==> r.accepted[i].owned.acl != "")
            && (r.failure.None? ==> r.current == Binding(name, Keys(name)))
  {
    hide Steps;
    var (s, view) := AfterLook(d, Fresh<S, Content>(state));
    var start, unowned := view.value.owned, view.value.unowned;
    var p := Progress(s, start, [], None);
    BeginCareful(s, start, unowned, Spares(name), Moves(name));
    StepsKept(d, p, start, name, unowned);
    StepsEnd(d, p, name, unowned);
    var r := Applied(d, state, name, parents);
    forall i | 0 <= i < |r.accepted| ensures r.accepted[i].owned.acl == start.acl || r.accepted[i].owned.acl == name {
      OldOrNew(r.session.sent, start, r.accepted, unowned, name, i + 1);
    }
  }

  lemma {:induction false} StepsEnd<S>(d: BindingDevice<S>, p: Course<S>, name: string, unowned: seq<string>)
    ensures Steps(d, p, name, unowned).failure.None? ==> Steps(d, p, name, unowned).current == Binding(name, Keys(name))
  {
    hide Checked, Pruned, Bound, Unbound;
  }
}
