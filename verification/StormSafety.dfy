/** What storm-control reconciliation guarantees on an arbitrary device, for every order in
    which the desired classes are visited. */
module StormSafety {
  import opened Prelude
  import opened Updating
  import opened CheckedWrites
  import opened StormControl

  /** Some of the start's limits, under its unit. */
  ghost predicate Part(policy: Policy, start: Policy) {
    && (forall c :: c in policy.limits ==> c in start.limits && policy.limits[c] == start.limits[c])
    && (policy.limits != map[] ==> policy.unit == start.unit)
  }

  /** The class has the same rate under the same unit before and after. */
  predicate Unchanged(start: Policy, desired: Policy, c: string) {
    start.unit == desired.unit && c in start.limits && c in desired.limits && start.limits[c] == desired.limits[c]
  }

  /** A policy the interface may have at any step: part of the old one or exactly the new
      one, with every unchanged class at its rate. */
  ghost predicate Safe(policy: Policy, start: Policy, desired: Policy) {
    && (policy == desired || Part(policy, start))
    && (forall c :: Unchanged(start, desired, c) ==> c in policy.limits && policy.limits[c] == start.limits[c])
  }

  /** Deletions name a class that is not wanted or not there, resets only precede a new
      unit, and rates sent are the present ones or the wanted ones. */
  function Lawful(desired: Policy): (r: (Request<Content>, Native) -> bool) {
    (request: Request<Content>, before: Native) =>
      match request.content
      case Class(c) => request.verb == "DELETE" && (c in before.policy.limits ==> c !in desired.limits)
      case Whole => request.verb == "DELETE" && before.policy.unit != desired.unit
      case Rates(rates) =>
        request.verb == "PATCH" && (rates == Prime(before.policy, desired) || rates == Changes(before.policy, desired))
  }

  /** What a mutation may have done: removed its class and no other, cleared everything, or
      left the policy alone or brought the desired one; and never anything unsafe. */
  ghost function Narrow(start: Policy, desired: Policy): (r: (Request<Content>, Native, Native) -> bool) {
    (request: Request<Content>, before: Native, after: Native) =>
      && !after.options && Safe(after.policy, start, desired)
      && match request.content
         case Class(c) => after.policy == if c in before.policy.limits then Minus(before.policy, c) else before.policy
         case Whole => after.policy.limits == map[]
         case Rates(_) => after.policy == before.policy || after.policy == desired
  }

  ghost predicate Kept<S>(p: Course<S>, start: Native, desired: Policy, unowned: seq<string>) {
    && Careful(p, start, unowned, Lawful(desired), Narrow(start.policy, desired))
    && (p.failure.None? ==> Safe(p.current.policy, start.policy, desired))
  }

  /** What passing the check says of a mutation's effect. */
  ghost predicate Proves(check: Check, start: Policy, desired: Policy, request: Request<Content>, before: Native) {
    match check
    case Exactly(policy) => Narrow(start, desired)(request, before, Native(policy, false))
    case Cleared => start.unit != desired.unit && request.content.Whole?
  }

  lemma {:induction false} PassedNarrow(check: Check, start: Policy, desired: Policy, request: Request<Content>,
        before: Native, unowned: seq<string>, e: Option<Error>, view: View<Native>)
    requires Proves(check, start, desired, request, before) && Watch(check, unowned)(e, view).None?
    ensures Narrow(start, desired)(request, before, view.owned)
  {
    hide Safe;
    match check
    case Exactly(policy) => assert view.owned == Native(policy, false);
    case Cleared => ClearedSafe(view.owned.policy, start, desired);
  }

  lemma {:induction false} ClearedSafe(policy: Policy, start: Policy, desired: Policy)
    requires policy.limits == map[] && start.unit != desired.unit
    ensures Safe(policy, start, desired)
  {
  }

  lemma {:induction false} SentKept<S>(d: StormDevice<S>, p: Course<S>, start: Native, desired: Policy,
        unowned: seq<string>, request: Request<Content>, allowMissing: bool, check: Check)
    requires Kept(p, start, desired, unowned) && Mutates(request.verb)
    requires p.failure.None? ==>
             Lawful(desired)(request, p.current) && Proves(check, start.policy, desired, request, p.current)
    ensures Kept(Checked(d, p, request, allowMissing, Watch(check, unowned)), start, desired, unowned)
  {
    if p.failure.None? {
      hide Checked, Lawful, Proves, Careful, Passes, Safe, Minus;
      var judge := Watch(check, unowned);
      forall e, view | judge(e, view).None? ensures Narrow(start.policy, desired)(request, p.current, view.owned) {
        PassedNarrow(check, start.policy, desired, request, p.current, unowned, e, view);
      }
      CheckedPasses(d, p, request, allowMissing, judge);
      CheckedCareful(d, p, start, unowned, Lawful(desired), Narrow(start.policy, desired), request, allowMissing,
        judge);
    }
  }

  lemma {:induction false} CurrentSafe<S>(p: Course<S>, start: Native, desired: Policy, unowned: seq<string>)
    requires Kept(p, start, desired, unowned) && p.failure.None?
    ensures Safe(p.current.policy, start.policy, desired)
  {
  }

  lemma {:induction false} MinusSafe(policy: Policy, start: Policy, desired: Policy, c: string)
    requires Safe(policy, start, desired) && c in policy.limits && c !in desired.limits
    ensures Safe(Minus(policy, c), start, desired)
  {
  }

  lemma {:induction false} DroppedKept<S>(d: StormDevice<S>, p: Course<S>, start: Native, desired: Policy,
        unowned: seq<string>, classes: seq<string>)
    requires Kept(p, start, desired, unowned)
    ensures Kept(Dropped(d, p, desired, unowned, classes), start, desired, unowned)
    decreases |classes|
  {
    hide Kept, Checked, Safe, Minus, Watch;
    if classes != [] {
      var c, policy := classes[0], p.current.policy;
      if p.failure.None? && c in policy.limits && c !in desired.limits {
        CurrentSafe(p, start, desired, unowned);
        MinusSafe(policy, start.policy, desired, c);
        SentKept(d, p, start, desired, unowned, Request("DELETE", Class(c)), true, Exactly(Minus(policy, c)));
      }
      DroppedKept(d, DropOne(d, p, desired, unowned, c), start, desired, unowned, classes[1..]);
    }
  }

  lemma {:induction false} InvalidatedKept<S>(d: StormDevice<S>, p: Course<S>, start: Native, desired: Policy,
        unowned: seq<string>, order: seq<string>)
    requires Kept(p, start, desired, unowned)
    ensures Kept(Invalidated(d, p, unowned, order), start, desired, unowned)
  {
    hide Kept, Checked, Safe, Watch;
    if order != [] {
      var n := |order| - 1;
      InvalidatedKept(d, p, start, desired, unowned, order[..n]);
      var q := Invalidated(d, p, unowned, order[..n]);
      if q.failure.None? && order[n] !in q.current.policy.limits {
        CurrentSafe(q, start, desired, unowned);
        SentKept(d, q, start, desired, unowned, Request("DELETE", Class(order[n])), true, Exactly(q.current.policy));
      }
    }
  }

  lemma {:induction false} EndsSafe(start: Policy, desired: Policy)
    ensures Safe(desired, start, desired) && Safe(start, start, desired)
  {
  }

  lemma {:induction false} ResetKept<S>(d: StormDevice<S>, p: Course<S>, start: Native, desired: Policy,
        unowned: seq<string>)
    requires Kept(p, start, desired, unowned) && (p.failure.None? ==> p.current.policy == start.policy)
    ensures Kept(Reset(d, p, desired, unowned), start, desired, unowned)
  {
    hide Kept, Checked, Safe, Watch;
    if p.failure.None? && start.policy.unit != desired.unit {
      SentKept(d, p, start, desired, unowned, Request("DELETE", Whole), true, Cleared);
    }
  }

  lemma {:induction false} PrimedKept<S>(d: StormDevice<S>, p: Course<S>, start: Native, desired: Policy,
        unowned: seq<string>)
    requires Kept(p, start, desired, unowned) && (p.failure.None? ==> p.current.policy == start.policy)
    ensures var r := Primed(d, p, desired, unowned);
            Kept(r, start, desired, unowned) && (r.failure.None? ==> r.current.policy == start.policy)
  {
    hide Kept, Checked, Safe, Prime, Watch;
    EndsSafe(start.policy, desired);
    var request := Request("PATCH", Rates(Prime(p.current.policy, desired)));
    SentKept(d, p, start, desired, unowned, request, false, Exactly(p.current.policy));
    CheckedExactly(d, p, request, false, p.current.policy, unowned);
  }

  lemma {:induction false} PatchedKept<S>(d: StormDevice<S>, p: Course<S>, start: Native, desired: Policy,
        unowned: seq<string>)
    requires Kept(p, start, desired, unowned)
    ensures Kept(Patched(d, p, desired, unowned), start, desired, unowned)
  {
    hide Kept, Checked, Safe, Changes, Watch;
    EndsSafe(start.policy, desired);
    SentKept(d, p, start, desired, unowned, Request("PATCH", Rates(Changes(p.current.policy, desired))), false,
      Exactly(desired));
  }

  lemma {:induction false} StepsKept<S>(d: StormDevice<S>, p: Course<S>, start: Native, desired: Policy,
        unowned: seq<string>, order: seq<string>)
    requires Kept(p, start, desired, unowned) && p.failure.None? && p.current == start
    ensures var r := Steps(d, p, desired, unowned, order);
            Kept(r, start, desired, unowned) && (r.failure.None? ==> r.current.policy == desired)
  {
    hide Kept, Checked, Primed, Reset, Dropped, Invalidated, Patched;
    var p1 := Primed(d, p, desired, unowned);
    PrimedKept(d, p, start, desired, unowned);
    var p2 := Reset(d, p1, desired, unowned);
    ResetKept(d, p1, start, desired, unowned);
    var p3 := Dropped(d, p2, desired, unowned, CLASSES);
    DroppedKept(d, p2, start, desired, unowned, CLASSES);
    var p4 := Invalidated(d, p3, unowned, order);
    InvalidatedKept(d, p3, start, desired, unowned, order);
    PatchedKept(d, p4, start, desired, unowned);
    SettledKept(Patched(d, p4, desired, unowned), start, desired, unowned);
  }

  lemma {:induction false} SettledKept<S>(p: Course<S>, start: Native, desired: Policy, unowned: seq<string>)
    requires Kept(p, start, desired, unowned)
    ensures Kept(Settled(p, desired), start, desired, unowned)
  {
    hide Safe;
  }

  /** The interface as the workflow first reads it, when it is there and readable. */
  function FirstSeen<S>(d: StormDevice<S>, state: S): (view: Option<View<Native>>) {
    var (s, there) := AfterProbe(d, Fresh<S, Content>(state), ());
    if there then AfterLook(d, s).1 else None
  }

  /** Whatever the device answers and in whatever order classes are visited: every mutation
      is lawful for the readback before it, every accepted readback differs from that one
      only by what its mutation is for, is safe, without options and with all else
      unchanged; and success means the desired policy was read back. */
  lemma {:induction false} ArbitraryDevice<S>(d: StormDevice<S>, state: S, desired: Policy, order: seq<string>)
    requires FirstSeen(d, state).Some?
    ensures var r := Applied(d, state, desired, order);
            var before := FirstSeen(d, state).value;
            && Careful(r, before.owned, before.unowned, Lawful(desired), Narrow(before.owned.policy, desired))
            && (r.failure.None? ==> r.current.policy == desired && r.session.err.None?)
  {
    hide Steps, Safe, Lawful, Narrow, Justified, Effective;
    var (s0, _) := AfterProbe(d, Fresh<S, Content>(state), ());
    var (s, view) := AfterLook(d, s0);
    var start, unowned := view.value.owned, view.value.unowned;
    EndsSafe(start.policy, desired);
    var p := Progress(s, start, [], None);
    BeginCareful(s, start, unowned, Lawful(desired), Narrow(start.policy, desired));
    StepsKept(d, p, start, desired, unowned, order);
  }

  /** Written out: a class deletion whose readback was accepted removed that class from the
      policy read before it, and nothing else. */
  lemma {:induction false} DeletionRemovesOnlyItsClass<S>(d: StormDevice<S>, state: S, desired: Policy,
        order: seq<string>, i: nat)
    requires FirstSeen(d, state).Some? && i < |Applied(d, state, desired, order).accepted|
    ensures var r := Applied(d, state, desired, order);
            && |r.accepted| <= |r.session.sent| <= |r.accepted| + 1
            && (r.session.sent[i].request.content.Class? ==>
                  var c := r.session.sent[i].request.content.name;
                  var policy := Preceding(FirstSeen(d, state).value.owned, r.accepted, i).policy;
                  r.accepted[i].owned.policy == if c in policy.limits then Minus(policy, c) else policy)
  {
    hide Applied, Safe, Minus;
    ArbitraryDevice(d, state, desired, order);
    var r, before := Applied(d, state, desired, order), FirstSeen(d, state).value;
    EffectiveAt(r.session.sent, before.owned, r.accepted, before.unowned, Narrow(before.owned.policy, desired), i);
  }
}
