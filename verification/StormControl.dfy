/** Storm-control policies: rates per traffic class under one unit, changed through a cache
    that can suppress or hide changes. */
module StormControl {
  import opened Prelude
  import opened Updating
  import opened CheckedWrites

  const CLASSES := ["broadcast", "multicast", "unknown-unicast"]
  const PPS := "pps"
  const KBPS := "kbps"
  const LAST_PPS := 8388607
  const LAST_KBPS := 1000000

  datatype Policy = Policy(unit: string, limits: map<string, Int64>)

  datatype Native = Native(policy: Policy, options: bool)

  datatype Limit = Limit(rate: Int64, kbps: bool)

  datatype Content = Rates(rates: map<string, Limit>) | Whole | Class(name: string)

  /** The probe asks whether the interface is there. */
  type StormDevice<!S> = Device<S, Content, Native, ()>

  type Course<S> = Progress<S, Content, Native>

  predicate Valid(p: Policy) {
    if p.limits == map[] then p.unit == ""
    else
      && (p.unit == PPS || p.unit == KBPS)
      && forall c :: c in p.limits ==>
         c in CLASSES && 1 <= p.limits[c] <= (if p.unit == KBPS then LAST_KBPS else LAST_PPS)
  }

  method Validate(p: Policy) returns (ok: bool)
    ensures ok <==> Valid(p)
  {
    if p.limits == map[] {
      return p.unit == "";
    }
    if p.unit != PPS && p.unit != KBPS {
      return false;
    }
    var maximum := 8388607;
    if p.unit == "kbps" {
      maximum := 1000000;
    }
    var todo := p.limits.Keys;
    while todo != {}
      invariant todo <= p.limits.Keys
      invariant forall c :: c in p.limits && c !in todo ==> c in CLASSES && 1 <= p.limits[c] <= maximum
      decreases |todo|
    {
      var c :| c in todo;
      if c !in ["broadcast", "multicast", "unknown-unicast"] || p.limits[c] < 1 || p.limits[c] > maximum {
        return false;
      }
      todo := todo - {c};
    }
    return true;
  }

  // ---- one write ----

  /** What must be read back for the workflow to go on. */
  datatype Check = Exactly(policy: Policy) | Cleared

  predicate Passes(check: Check, policy: Policy) {
    match check
    case Exactly(wanted) => policy == wanted
    case Cleared => policy.limits == map[]
  }

  /** The verdict on a readback: options never pass, and a refused write is reported as such
      even where the policy is not the wanted one. */
  function Watch(check: Check, unowned: seq<string>): (judge: Verdict<Native>) {
    (e: Option<Error>, view: View<Native>) =>
      if view.owned.options || view.unowned != unowned then Some(Stopped(e, Unrelated))
      else if e.Some? then Some(Stopped(e, Matched))
      else if !Passes(check, view.owned.policy) then Some(Stopped(None, Diverged))
      else None
  }

  // ---- the stages ----

  function RateOf(p: Policy, c: string): (r: Int64) { if c in p.limits then p.limits[c] else 0 }

  /** Current values of every class that will change, sent back so that the cache has them. */
  function Prime(current: Policy, desired: Policy): (r: map<string, Limit>) {
    map c | c in current.limits && (desired.unit != current.unit || RateOf(desired, c) != current.limits[c]) ::
      Limit(current.limits[c], current.unit == KBPS)
  }

  function Primed<S>(d: StormDevice<S>, p: Course<S>, desired: Policy, unowned: seq<string>): (r: Course<S>) {
    var prime := Prime(p.current.policy, desired);
    if p.failure.Some? || prime == map[] then p
    else Checked(d, p, Request("PATCH", Rates(prime)), false, Watch(Exactly(p.current.policy), unowned))
  }

  function Reset<S>(d: StormDevice<S>, p: Course<S>, desired: Policy, unowned: seq<string>): (r: Course<S>) {
    var policy := p.current.policy;
    if p.failure.Some? || policy.limits == map[] || policy.unit == desired.unit then p
    else Checked(d, p, Request("DELETE", Whole), true, Watch(Cleared, unowned))
  }

  function Minus(p: Policy, c: string): (r: Policy) {
    var limits := p.limits - {c};
    Policy(if limits == map[] then "" else p.unit, limits)
  }

  function DropOne<S>(d: StormDevice<S>, p: Course<S>, desired: Policy, unowned: seq<string>,
        c: string): (r: Course<S>) {
    var policy := p.current.policy;
    if p.failure.Some? || c !in policy.limits || c in desired.limits then p
    else Checked(d, p, Request("DELETE", Class(c)), true, Watch(Exactly(Minus(policy, c)), unowned))
  }

  function Dropped<S>(d: StormDevice<S>, p: Course<S>, desired: Policy, unowned: seq<string>,
        classes: seq<string>): (r: Course<S>)
    decreases |classes|
  {
    if classes == [] then p else Dropped(d, DropOne(d, p, desired, unowned, classes[0]), desired, unowned, classes[1..])
  }

  function InvalidateOne<S>(d: StormDevice<S>, p: Course<S>, unowned: seq<string>, c: string): (r: Course<S>) {
    if p.failure.Some? || c in p.current.policy.limits then p
    else Checked(d, p, Request("DELETE", Class(c)), true, Watch(Exactly(p.current.policy), unowned))
  }

  function Invalidated<S>(d: StormDevice<S>, p: Course<S>, unowned: seq<string>, order: seq<string>): (r: Course<S>) {
    if order == [] then p
    else InvalidateOne(d, Invalidated(d, p, unowned, order[..|order| - 1]), unowned, order[|order| - 1])
  }

  predicate Differs(current: Policy, desired: Policy, c: string)
    requires c in desired.limits
  {
    current.unit != desired.unit || RateOf(current, c) != desired.limits[c]
  }

  function Changes(current: Policy, desired: Policy): (r: map<string, Limit>) {
    map c | c in desired.limits && Differs(current, desired, c) :: Limit(desired.limits[c], desired.unit == KBPS)
  }

  function Patched<S>(d: StormDevice<S>, p: Course<S>, desired: Policy, unowned: seq<string>): (r: Course<S>) {
    var changes := Changes(p.current.policy, desired);
    if p.failure.Some? || changes == map[] then p
    else Checked(d, p, Request("PATCH", Rates(changes)), false, Watch(Exactly(desired), unowned))
  }

  function Settled<S>(p: Course<S>, desired: Policy): (r: Course<S>) {
    if p.failure.None? && p.current.policy != desired then p.(failure := Some(Stopped(None, Diverged))) else p
  }

  /** Prime, reset the unit, drop classes, invalidate the cache in the given order, patch. */
  function Steps<S>(d: StormDevice<S>, p: Course<S>, desired: Policy, unowned: seq<string>,
        order: seq<string>): (r: Course<S>) {
    var p1 := Primed(d, p, desired, unowned);
    var p2 := Reset(d, p1, desired, unowned);
    var p3 := Dropped(d, p2, desired, unowned, CLASSES);
    var p4 := Invalidated(d, p3, unowned, order);
    Settled(Patched(d, p4, desired, unowned), desired)
  }

  const NOTHING := Native(Policy("", map[]), false)

  /** The whole callback. `order` is the order in which the desired classes are visited. */
  function Applied<S>(d: StormDevice<S>, state: S, desired: Policy, order: seq<string>): (r: Course<S>) {
    var (s0, there) := AfterProbe(d, Fresh(state), ());
    if !there then
      Progress(s0, NOTHING, [], if desired.limits == map[] then None else Some(Stopped(None, Unreadable)))
    else
      var (s, view) := AfterLook(d, s0);
      if view.None? then Progress(s, NOTHING, [], Some(Stopped(None, Unreadable)))
      else
        var start := view.value.owned;
        if start.options then Progress(s, start, [], Some(Declined))
        else if start.policy == desired then Progress(s, start, [], None)
        else Steps(d, Progress(s, start, [], None), desired, view.value.unowned, order)
  }

  // ---- the writer ----

  method Drop<S>(d: StormDevice<S>, w: Writer<S, Content, Native>, desired: Policy) returns (failure: Option<Failure>)
    modifies w, w.update
    ensures w.Now(failure) == Dropped(d, old(w.Now(None)), desired, w.unowned, CLASSES)
  {
    hide Checked, Minus, CLASSES;
    failure := None;
    for i := 0 to |CLASSES|
      invariant failure.None?
      invariant Dropped(d, old(w.Now(None)), desired, w.unowned, CLASSES) ==
                Dropped(d, w.Now(None), desired, w.unowned, CLASSES[i..])
    {
      var class_ := CLASSES[i];
      assert CLASSES[i..][1..] == CLASSES[i + 1..];
      if class_ !in w.current.policy.limits || class_ in desired.limits {
        continue;
      }
      var expected := Minus(w.current.policy, class_);
      failure := w.Send(d, Request("DELETE", Class(class_)), true, Watch(Exactly(expected), w.unowned));
      if failure.Some? {
        DroppedStuck(d, w.Now(failure), desired, w.unowned, CLASSES[i + 1..]);
        return;
      }
    }
  }

  /** Visits the desired classes in some order, collecting the ones to patch. */
  method Invalidate<S>(d: StormDevice<S>, w: Writer<S, Content, Native>, desired: Policy)
    returns (failure: Option<Failure>, changed: map<string, Limit>, ghost order: seq<string>)
    modifies w, w.update
    ensures multiset(order) == multiset(desired.limits.Keys)
    ensures w.Now(failure) == Invalidated(d, old(w.Now(None)), w.unowned, order)
    ensures failure.None? ==> changed == Changes(w.current.policy, desired)
  {
    hide Checked, InvalidateOne, Invalidated, ChangesApart, Changes, Differs;
    failure, changed, order := None, map[], [];
    ghost var p, policy := w.Now(None), w.current.policy;
    var todo := desired.limits.Keys;
    NoneInvalid(d, p, w.unowned);
    NoChanges(policy, desired);
    while todo != {}
      invariant todo <= desired.limits.Keys && multiset(order) + multiset(todo) == multiset(desired.limits.Keys)
      invariant failure.None? && w.current.policy == policy
      invariant w.Now(None) == Invalidated(d, p, w.unowned, order)
      invariant changed == ChangesApart(policy, desired, todo)
      decreases |todo|
    {
      var c :| c in todo;
      InvalidatedMore(d, p, w.unowned, order, c);
      ChangesStep(policy, desired, todo, c);
      TakeOne(order, todo, c);
      todo, order := todo - {c}, order + [c];
      failure := InvalidateClass(d, w, c);
      if failure.Some? {
        InvalidatedStuck(d, p, w.unowned, order, Listed(todo));
        order := order + Listed(todo);
        return;
      }
      if Differs(w.current.policy, desired, c) {
        changed := changed[c := Limit(desired.limits[c], desired.unit == KBPS)];
      }
    }
  }

  method InvalidateClass<S>(d: StormDevice<S>, w: Writer<S, Content, Native>, c: string)
    returns (failure: Option<Failure>)
    modifies w, w.update
    ensures w.Now(failure) == InvalidateOne(d, old(w.Now(None)), w.unowned, c)
    ensures failure.None? ==> w.current.policy == old(w.current.policy)
  {
    hide Checked;
    if c !in w.current.policy.limits {
      CheckedExactly(d, w.Now(None), Request("DELETE", Class(c)), true, w.current.policy, w.unowned);
      failure := w.Send(d, Request("DELETE", Class(c)), true, Watch(Exactly(w.current.policy), w.unowned));
    } else {
      failure := None;
    }
  }

  /** The changes of the classes already visited. */
  function ChangesApart(current: Policy, desired: Policy, todo: set<string>): (r: map<string, Limit>) {
    map c | c in desired.limits && c !in todo && Differs(current, desired, c) ::
      Limit(desired.limits[c], desired.unit == KBPS)
  }

  lemma {:induction false} ChangesStep(current: Policy, desired: Policy, todo: set<string>, c: string)
    requires c in desired.limits && c in todo
    ensures ChangesApart(current, desired, todo - {c}) ==
            if Differs(current, desired, c)
              then ChangesApart(current, desired, todo)[c := Limit(desired.limits[c], desired.unit == KBPS)]
            else ChangesApart(current, desired, todo)
  {
  }

  lemma {:induction false} NoChanges(current: Policy, desired: Policy)
    ensures ChangesApart(current, desired, desired.limits.Keys) == map[]
    ensures ChangesApart(current, desired, {}) == Changes(current, desired)
  {
  }

  lemma {:induction false} TakeOne(order: seq<string>, todo: set<string>, c: string)
    requires c in todo
    ensures multiset(order + [c]) + multiset(todo - {c}) == multiset(order) + multiset(todo)
  {
    assert multiset(todo) == multiset(todo - {c}) + multiset{c};
  }

  lemma {:induction false} NoneInvalid<S>(d: StormDevice<S>, p: Course<S>, unowned: seq<string>)
    ensures Invalidated(d, p, unowned, []) == p
  {
  }

  ghost function Listed(s: set<string>): (r: seq<string>)
    ensures multiset(r) == multiset(s)
  {
    if s == {} then []
    else
      var x :| x in s;
      assert multiset(s) == multiset{x} + multiset(s - {x});
      [x] + Listed(s - {x})
  }

  lemma {:induction false} DroppedStuck<S>(d: StormDevice<S>, p: Course<S>, desired: Policy, unowned: seq<string>,
        classes: seq<string>)
    requires p.failure.Some?
    ensures Dropped(d, p, desired, unowned, classes) == p
    decreases |classes|
  {
    if classes != [] { DroppedStuck(d, p, desired, unowned, classes[1..]); }
  }

  lemma {:induction false} InvalidatedMore<S>(d: StormDevice<S>, p: Course<S>, unowned: seq<string>,
        order: seq<string>, c: string)
    ensures Invalidated(d, p, unowned, order + [c]) == InvalidateOne(d, Invalidated(d, p, unowned, order), unowned, c)
  {
    hide InvalidateOne;
    assert (order + [c])[..|order|] == order;
  }

  lemma {:induction false} InvalidatedStuck<S>(d: StormDevice<S>, p: Course<S>, unowned: seq<string>, a: seq<string>,
        b: seq<string>)
    requires Invalidated(d, p, unowned, a).failure.Some?
    ensures Invalidated(d, p, unowned, a + b) == Invalidated(d, p, unowned, a)
  {
    if b == [] {
      assert a + b == a;
    } else {
      var n := |b| - 1;
      InvalidatedStuck(d, p, unowned, a, b[..n]);
      assert (a + b)[..|a| + n] == a + b[..n];
    }
  }

  lemma {:induction false} CheckedExactly<S>(d: StormDevice<S>, p: Course<S>, request: Request<Content>,
        allowMissing: bool, policy: Policy, unowned: seq<string>)
    ensures p.failure.None? && Checked(d, p, request, allowMissing, Watch(Exactly(policy), unowned)).failure.None? ==>
              Checked(d, p, request, allowMissing, Watch(Exactly(policy), unowned)).current.policy == policy
  {
  }

  method Apply<S>(d: StormDevice<S>, update: Update<S, Content>, desired: Policy)
    returns (current: Native, failure: Option<Failure>, ghost accepted: seq<View<Native>>, ghost order: seq<string>)
    requires update.Now() == Fresh(update.state)
    modifies update
    ensures multiset(order) == multiset(desired.limits.Keys)
    ensures Progress(update.Now(), current, accepted, failure) == Applied(d, old(update.state), desired, order)
  {
    hide Checked, Dropped, Invalidated, CLASSES, Prime, Changes;
    accepted, order := [], Listed(desired.limits.Keys);
    var there := update.Probe(d, ());
    if !there {
      return NOTHING, if desired.limits == map[] then None else Some(Stopped(None, Unreadable)), [], order;
    }
    var view := update.Look(d);
    if view.None? {
      return NOTHING, Some(Stopped(None, Unreadable)), [], order;
    }
    var start := view.value.owned;
    if start.options {
      return start, Some(Declined), [], order;
    }
    if start.policy == desired {
      return start, None, [], order;
    }
    var w := new Writer(update, view.value);
    ghost var p := w.Now(None);
    failure, order := WriteAll(d, w, desired);
    return w.current, failure, w.accepted, order;
  }

  method WriteAll<S>(d: StormDevice<S>, w: Writer<S, Content, Native>, desired: Policy)
    returns (failure: Option<Failure>, ghost order: seq<string>)
    modifies w, w.update
    ensures multiset(order) == multiset(desired.limits.Keys)
    ensures w.Now(failure) == Steps(d, old(w.Now(None)), desired, w.unowned, order)
  {
    hide Checked, Dropped, Invalidated, CLASSES, Prime, Changes;
    order := Listed(desired.limits.Keys);
    ghost var p := w.Now(None);
    ghost var p1 := Primed(d, p, desired, w.unowned);
    var prime := Prime(w.current.policy, desired);
    if prime != map[] {
      failure := w.Send(d, Request("PATCH", Rates(prime)), false, Watch(Exactly(w.current.policy), w.unowned));
      if failure.Some? {
        StepsStuck(d, p, desired, w.unowned, order, 1);
        return;
      }
    }
    if w.current.policy.limits != map[] && w.current.policy.unit != desired.unit {
      failure := w.Send(d, Request("DELETE", Whole), true, Watch(Cleared, w.unowned));
      if failure.Some? {
        StepsStuck(d, p, desired, w.unowned, order, 2);
        return;
      }
    }
    failure := Drop(d, w, desired);
    if failure.Some? {
      StepsStuck(d, p, desired, w.unowned, order, 3);
      return;
    }
    var changed: map<string, Limit>;
    failure, changed, order := Invalidate(d, w, desired);
    if failure.Some? {
      return;
    }
    if changed != map[] {
      failure := w.Send(d, Request("PATCH", Rates(changed)), false, Watch(Exactly(desired), w.unowned));
      if failure.Some? {
        return;
      }
    }
    if w.current.policy != desired {
      failure := Some(Stopped(None, Diverged));
    }
  }

  /** The course after one, two or three stages. */
  function After<S>(d: StormDevice<S>, p: Course<S>, desired: Policy, unowned: seq<string>,
        stage: nat): (r: Course<S>) {
    var p1 := Primed(d, p, desired, unowned);
    var p2 := Reset(d, p1, desired, unowned);
    if stage == 1 then p1 else if stage == 2 then p2 else Dropped(d, p2, desired, unowned, CLASSES)
  }

  lemma {:induction false} StepsStuck<S>(d: StormDevice<S>, p: Course<S>, desired: Policy, unowned: seq<string>,
        order: seq<string>, stage: nat)
    requires After(d, p, desired, unowned, stage).failure.Some?
    ensures Steps(d, p, desired, unowned, order) == After(d, p, desired, unowned, stage)
  {
    hide Checked, CLASSES, Prime, Changes;
    var r := After(d, p, desired, unowned, stage);
    DroppedStuck(d, r, desired, unowned, CLASSES);
    StillInvalid(d, r, unowned, order);
  }

  lemma {:induction false} StillInvalid<S>(d: StormDevice<S>, p: Course<S>, unowned: seq<string>, order: seq<string>)
    requires p.failure.Some?
    ensures Invalidated(d, p, unowned, order) == p
  {
    if order != [] { StillInvalid(d, p, unowned, order[..|order| - 1]); }
  }
}
