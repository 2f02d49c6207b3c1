/** Binding an access list on a merging device: PATCH replaces the native binding and keeps
    the old REST key, DELETE removes a key and the native binding that uses it. */
module AccessGroupMerge {
  import opened Prelude
  import opened Updating
  import opened CheckedWrites
  import opened AccessGroup

  datatype MergeState = MergeState(binding: Binding, others: seq<string>)

  function Without(keys: seq<string>, name: string): (r: seq<string>) { Filter(keys, (k: string) => k != name) }

  function MergeSend(insert: (string, seq<string>) -> seq<string>, s: MergeState,
        request: Request<Content>): (r: (MergeState, Reply)) {
    var b := s.binding;
    match request.content
    case Bind(name) =>
      if request.verb != "PATCH" then (s, Refused)
      else (s.(binding := Binding(name, if name in b.rest then b.rest else insert(name, b.rest))), Done)
    case Unbind(name) =>
      if request.verb != "DELETE" then (s, Refused)
      else if name !in b.rest then (s, Missing)
      else (s.(binding := Binding(if b.acl == name then "" else b.acl, Without(b.rest, name))), Done)
  }

  /** Where a new key goes in the listing is up to the device. */
  ghost predicate Inserts(insert: (string, seq<string>) -> seq<string>) {
    forall name, keys :: Distinct(keys) && name !in keys ==>
      Distinct(insert(name, keys)) && forall k :: k in insert(name, keys) <==> k == name || k in keys
  }

  function MergeDevice(insert: (string, seq<string>) -> seq<string>): (d: BindingDevice<MergeState>) {
    Device((s: MergeState, request) => MergeSend(insert, s, request),
           (s: MergeState) => (s, Some(View(s.binding, s.others))),
           (s: MergeState, g: ()) => (s, true))
  }

  /** No failure, every mutation done, and the state last read back. */
  ghost predicate Tracking(p: Course<MergeState>, b: Binding, others: seq<string>) {
    && p.failure.None? && p.session.active && p.session.err.None?
    && p.session.state == MergeState(b, others) && p.current == b
    && Distinct(b.rest) && AllDone(p.session.sent)
  }

  lemma {:induction false} WithoutKeys(keys: seq<string>, name: string)
    requires Distinct(keys)
    ensures Distinct(Without(keys, name)) && forall k :: k in Without(keys, name) <==> k in keys && k != name
  {
    if keys != [] {
      var rest := Without(keys[1..], name);
      WithoutKeys(keys[1..], name);
      assert keys[0] !in rest by { HeadApart(keys); }
    }
  }

  lemma {:induction false} HeadApart(keys: seq<string>)
    requires Distinct(keys) && keys != []
    ensures keys[0] !in keys[1..] && Distinct(keys[1..])
  {
    forall i | 0 <= i < |keys| - 1 ensures keys[1..][i] != keys[0] { assert keys[0] != keys[i + 1]; }
  }

  /** The key listed when at most one is left. */
  lemma {:induction false} OnlyKey(keys: seq<string>, name: string)
    requires Distinct(keys) && forall k :: k in keys ==> k == name
    ensures keys == if name in keys then [name] else []
  {
    if keys != [] {
      assert keys[0] in keys;
      HeadApart(keys);
      forall k | k in keys[1..] ensures k == name { assert k in keys; }
      OnlyKey(keys[1..], name);
      assert keys == [keys[0]] + keys[1..];
    }
  }

  lemma {:induction false} UnbindTracks(insert: (string, seq<string>) -> seq<string>, p: Course<MergeState>,
        b: Binding, others: seq<string>, name: string)
    requires Tracking(p, b, others) && name in b.rest
    ensures var wanted := if b.acl == name then "" else b.acl;
            Tracking(Gone(Checked(MergeDevice(insert), p, Request("DELETE", Unbind(name)), true,
              Judge(Shows(wanted), others)), name),
                     Binding(wanted, Without(b.rest, name)), others)
  {
    WithoutKeys(b.rest, name);
  }

  lemma {:induction false} BindTracks(insert: (string, seq<string>) -> seq<string>, p: Course<MergeState>, b: Binding,
        others: seq<string>, name: string)
    requires Tracking(p, b, others) && Inserts(insert)
    ensures Tracking(Checked(MergeDevice(insert), p, Request("PATCH", Bind(name)), false, Judge(Shows(name), others)),
                     Binding(name, if name in b.rest then b.rest else insert(name, b.rest)), others)
  {
  }

  /** Pruning leaves the bound ACL's key, if it was there, of the keys gone through. */
  lemma {:induction false} PruneTracks(insert: (string, seq<string>) -> seq<string>, p: Course<MergeState>,
        b: Binding, others: seq<string>, stales: seq<string>)
    returns (left: seq<string>)
    requires Tracking(p, b, others) && Distinct(stales) && forall k :: k in stales ==> k in b.rest
    ensures Tracking(Pruned(MergeDevice(insert), p, stales, others), Binding(b.acl, left), others)
    ensures forall k :: k in left <==> k in b.rest && (k == b.acl || k !in stales)
    decreases |stales|
  {
    hide Tracking, Checked, Gone, Without, Distinct;
    if stales == [] {
      return b.rest;
    }
    var stale := stales[0];
    HeadApart(stales);
    TrackingState(p, b, others);
    if stale == b.acl {
      left := PruneTracks(insert, p, b, others, stales[1..]);
    } else {
      UnbindTracks(insert, p, b, others, stale);
      WithoutKeys(b.rest, stale);
      left := PruneTracks(insert, PruneOne(MergeDevice(insert), p, stale, others),
        Binding(b.acl, Without(b.rest, stale)), others, stales[1..]);
    }
  }

  lemma {:induction false} TrackingState(p: Course<MergeState>, b: Binding, others: seq<string>)
    requires Tracking(p, b, others)
    ensures p.failure.None? && p.current == b && Distinct(b.rest) && p.session.state == MergeState(b, others)
            && AllDone(p.session.sent)
  {
  }

  lemma {:induction false} PruneAll(insert: (string, seq<string>) -> seq<string>, p: Course<MergeState>, b: Binding,
        others: seq<string>)
    requires Tracking(p, b, others)
    ensures Tracking(Pruned(MergeDevice(insert), p, b.rest, others),
            Binding(b.acl, if b.acl in b.rest then [b.acl] else []), others)
  {
    hide Tracking, Pruned, Distinct;
    TrackingState(p, b, others);
    var left := PruneTracks(insert, p, b, others, b.rest);
    TrackingState(Pruned(MergeDevice(insert), p, b.rest, others), Binding(b.acl, left), others);
    OnlyKey(left, b.acl);
  }

  /** A native binding that REST does not know, where none is wanted: a DELETE cannot reach
      it. */
  predicate Unreachable(b: Binding, name: string) { name == "" && b.acl != "" && b.acl !in b.rest }

  lemma {:induction false} ReplaceEnds(insert: (string, seq<string>) -> seq<string>, p: Course<MergeState>,
        b: Binding, others: seq<string>, name: string)
    requires Tracking(p, b, others) && Inserts(insert) && name != ""
    ensures Tracking(Steps(MergeDevice(insert), p, name, others), Binding(name, [name]), others)
  {
    hide Tracking, Pruned, Checked, Inserts, Distinct;
    var d := MergeDevice(insert);
    TrackingState(p, b, others);
    PruneAll(insert, p, b, others);
    var p1 := Pruned(d, p, b.rest, others);
    var b1 := Binding(b.acl, if b.acl in b.rest then [b.acl] else []);
    TrackingState(p1, b1, others);
    BindTracks(insert, p1, b1, others, name);
    var p3 := Bound(d, p1, name, others);
    var b3 := if b1 == Binding(name, [name]) then b1
      else Binding(name, if name in b1.rest then b1.rest else insert(name, b1.rest));
    InsertedKey(insert, name, b1.rest);
    TrackingState(p3, b3, others);
    PruneAll(insert, p3, b3, others);
    TrackingState(Pruned(d, p3, b3.rest, others), Binding(name, [name]), others);
  }

  lemma {:induction false} InsertedKey(insert: (string, seq<string>) -> seq<string>, name: string, keys: seq<string>)
    requires Inserts(insert) && Distinct(keys)
    ensures name in (if name in keys then keys else insert(name, keys))
  {
  }

  lemma {:induction false} ClearEnds(insert: (string, seq<string>) -> seq<string>, p: Course<MergeState>, b: Binding,
        others: seq<string>)
    requires Tracking(p, b, others) && !Unreachable(b, "")
    requires b.acl == "" ==> "" !in b.rest
    ensures Tracking(Steps(MergeDevice(insert), p, "", others), Binding("", []), others)
  {
    hide Tracking, Pruned, Checked, Distinct;
    var d := MergeDevice(insert);
    TrackingState(p, b, others);
    PruneAll(insert, p, b, others);
    var p1 := Pruned(d, p, b.rest, others);
    var b1 := Binding(b.acl, if b.acl in b.rest then [b.acl] else []);
    TrackingState(p1, b1, others);
    if b.acl != "" {
      UnbindTracks(insert, p1, b1, others, b.acl);
      assert Without([b.acl], b.acl) == [];
    }
    var p2 := Unbound(d, p1, "", others);
    TrackingState(p2, Binding("", []), others);
    PruneAll(insert, p2, Binding("", []), others);
    TrackingState(Pruned(d, p2, [], others), Binding("", []), others);
  }

  lemma {:induction false} UnreachableFails(insert: (string, seq<string>) -> seq<string>, p: Course<MergeState>,
        b: Binding, others: seq<string>)
    requires Tracking(p, b, others) && Unreachable(b, "")
    ensures Steps(MergeDevice(insert), p, "", others).failure.Some?
  {
    hide Pruned;
    PruneAll(insert, p, b, others);
  }

  /** With its parents there, the callback succeeds exactly unless it is to clear a native
      binding whose REST key is missing; success leaves the binding and its one key, every
      mutation done, and everything else as it was. */
  lemma {:induction false} Converges(insert: (string, seq<string>) -> seq<string>, s: MergeState, name: string,
        parents: View<Binding> -> bool)
    requires Inserts(insert) && Distinct(s.binding.rest) && "" !in s.binding.rest
    requires name != "" ==> parents(View(s.binding, s.others))
    ensures var r := Applied(MergeDevice(insert), s, name, parents);
            && (r.failure.None? <==> !Unreachable(s.binding, name))
            && (r.failure.None? ==>
                  r.session.state == MergeState(Binding(name, Keys(name)), s.others) && AllDone(r.session.sent))
  {
    hide Pruned, Checked, Steps, Inserts, Distinct;
    var p := Progress(Fresh<MergeState, Content>(s), s.binding, [], None);
    assert Tracking(p, s.binding, s.others);
    if name != "" {
      ReplaceEnds(insert, p, s.binding, s.others, name);
    } else if Unreachable(s.binding, "") {
      UnreachableFails(insert, p, s.binding, s.others);
    } else {
      ClearEnds(insert, p, s.binding, s.others);
    }
  }

  /** The exception is real: an ACL bound natively under no REST key cannot be unbound. */
  lemma {:induction false} StrandedBinding(insert: (string, seq<string>) -> seq<string>, parents: View<Binding> -> bool)
    requires Inserts(insert)
    ensures Applied(MergeDevice(insert), MergeState(Binding("x", []), []), "", parents).failure.Some?
  {
    hide Inserts, Applied;
    Converges(insert, MergeState(Binding("x", []), []), "", parents);
  }
}
