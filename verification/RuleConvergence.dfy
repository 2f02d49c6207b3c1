/** Access-list reconciliation on a merging device: PATCH merges by key (section 4.6.1 of
    RFC 8040), DELETE removes one keyed entry (section 4.7), an equal rule at a second
    sequence is refused, and so is creating an empty list. */
module RuleConvergence {
  import opened Prelude
  import opened Sorting
  import opened Updating
  import opened CheckedWrites
  import opened RuleReconcile
  import opened RuleSafety

  datatype MergeState<R> = MergeState(list: Owned<R>, others: seq<string>)

  /** How a device merges a rule into an existing entry is up to the device. */
  function Overlay<R>(merge: (R, R) -> R, was: Rules<R>, rules: Rules<R>): (r: Rules<R>) {
    map k | k in was.Keys + rules.Keys ::
      if k !in rules then was[k] else if k in was then merge(was[k], rules[k]) else rules[k]
  }

  /** A patched sequence would hold a rule that another sequence holds too. */
  predicate Collides<R(==)>(merged: Rules<R>, patched: set<Int64>) {
    exists k, j :: k in patched && j in merged && k in merged && j != k && merged[j] == merged[k]
  }

  function MergeSend<R(==)>(merge: (R, R) -> R, s: MergeState<R>,
        request: Request<Content<R>>): (r: (MergeState<R>, Reply)) {
    match request.content
    case List(rules) =>
      var merged := Overlay(merge, if s.list.Some? then s.list.value else map[], rules);
      if request.verb != "PATCH" || (s.list.None? && rules == map[]) || Collides(merged, rules.Keys) then (s, Refused)
      else (s.(list := Some(merged)), Done)
    case Entry(k) =>
      if request.verb != "DELETE" then (s, Refused)
      else if s.list.None? || k !in s.list.value then (s, Missing)
      else (s.(list := Some(s.list.value - {k})), Done)
  }

  /** The REST collection mirrors native configuration. */
  predicate MergeProbe<R>(s: MergeState<R>, wanted: Expected) {
    wanted == Sequences(s.list) && (wanted.Some? ==> InSequence(wanted.value))
  }

  function MergeDevice<R(==)>(merge: (R, R) -> R): (d: RuleDevice<MergeState<R>, R>) {
    Device((s: MergeState<R>, request) => MergeSend(merge, s, request),
           (s: MergeState<R>) => (s, Some(View(s.list, s.others))),
           (s: MergeState<R>, wanted) => (s, MergeProbe(s, wanted)))
  }

  /** On track, with the device holding the list and all else as it was. */
  ghost predicate Tracking<R>(p: Progress<MergeState<R>, Content<R>, Owned<R>>, list: Owned<R>, others: seq<string>) {
    OnTrack(p, MergeState(list, others), list)
  }

  lemma {:induction false} StaysTracking<R>(merge: (R, R) -> R, p: Progress<MergeState<R>, Content<R>, Owned<R>>,
        list: Owned<R>, others: seq<string>, step: RuleStep<R>)
    requires Tracking(p, list, others) && step.guard.None? && Mutates(step.request.verb)
    requires MergeSend(merge, MergeState(list, others), step.request) == (MergeState(step.expected, others), Done)
    ensures Tracking(Wrote(MergeDevice(merge), p, step, others), step.expected, others)
  {
    hide MergeSend, Wrote, OnTrack;
    StaysOnTrack(MergeDevice(merge), p, MergeState(list, others), list, MergeState(step.expected, others), step,
      others);
  }

  // ---- each kind of step is accepted ----

  lemma {:induction false} DeleteAccepted<R>(merge: (R, R) -> R, list: Rules<R>, others: seq<string>, k: Int64)
    requires k in list
    ensures MergeSend(merge, MergeState(Some(list), others), Request("DELETE", Entry(k))) ==
            (MergeState(Some(list - {k}), others), Done)
  {
  }

  lemma {:induction false} AdditionsAccepted<R>(merge: (R, R) -> R, list: Rules<R>, others: seq<string>,
        desired: Rules<R>)
    requires Within(list, desired) && Unrepeated(desired)
    ensures MergeSend(merge, MergeState(Some(list), others), Request("PATCH", List(Additions(list, desired)))) ==
            (MergeState(Some(desired), others), Done)
  {
    var rules := Additions(list, desired);
    var merged := Overlay(merge, list, rules);
    forall k | k in list ensures k !in rules && k in desired && list[k] == desired[k] {
      assert Keeps(list, desired, k);
    }
    assert merged.Keys == desired.Keys;
    assert merged == desired;
  }

  lemma {:induction false} CreateAccepted<R>(merge: (R, R) -> R, others: seq<string>, initial: Rules<R>)
    requires initial != map[] && Unrepeated(initial)
    ensures MergeSend(merge, MergeState(None, others), Request("PATCH", List(initial))) ==
            (MergeState(Some(initial), others), Done)
  {
    assert Overlay(merge, map[], initial) == initial;
  }

  // ---- whole plans ----

  lemma {:induction false} DeletesOnTrack<R>(merge: (R, R) -> R, p: Progress<MergeState<R>, Content<R>, Owned<R>>,
        base: Rules<R>, desired: Rules<R>, keys: seq<Int64>, others: seq<string>, i: nat)
    requires Tracking(p, Some(base), others)
    requires i <= |keys| && Ascends(keys) && forall k :: k in keys <==> k in base
    ensures Tracking(Run(MergeDevice(merge), p, DeleteSteps(base, desired, keys[..i]), others),
            Some(Remaining(base, desired, keys[..i])), others)
  {
    hide Tracking, Remaining, DeleteSteps, Keeps, Wrote;
    if i == 0 {
      NoDeletes(base, desired, keys);
      RemainingStart(base, desired);
    } else {
      var n := i - 1;
      var before := Remaining(base, desired, keys[..n]);
      DeletesOnTrack(merge, p, base, desired, keys, others, n);
      RemainingStep(base, desired, keys, n);
      DeletesStep(base, desired, keys, n);
      var steps := DeleteSteps(base, desired, keys[..n]);
      if Keeps(base, desired, keys[n]) {
        assert steps + [] == steps;
      } else {
        var step := Step(None, Request("DELETE", Entry(keys[n])), true, Some(Remaining(base, desired, keys[..i])));
        DeleteAccepted(merge, before, others, keys[n]);
        RunExtend(MergeDevice(merge), p, steps, step, others);
        StaysTracking(merge, Run(MergeDevice(merge), p, steps, others), Some(before), others, step);
      }
    }
  }

  lemma {:induction false} LeftIsDesired<R>(base: Rules<R>, desired: Rules<R>, keys: seq<Int64>)
    requires forall k :: k in keys <==> k in base
    ensures Within(Remaining(base, desired, keys), desired)
  {
    forall k | k in Remaining(base, desired, keys) ensures k in desired && base[k] == desired[k] {
      assert k in keys;
    }
  }

  lemma {:induction false} CreateOnTrack<R>(merge: (R, R) -> R, p: Progress<MergeState<R>, Content<R>, Owned<R>>,
        family: Family<R>, start: Owned<R>, desired: Rules<R>, others: seq<string>)
    requires Tracking(p, start, others) && Unrepeated(desired)
    ensures Tracking(Run(MergeDevice(merge), p, CreateSteps(family, start, desired), others),
            Some(Base(family, start, desired)), others)
  {
    hide Tracking, Wrote;
    if start.None? {
      var initial := Initial(family, desired);
      var step := Step(None, Request("PATCH", List(initial)), false, Some(initial));
      assert desired == map[] ==> 1 in initial;
      CreateAccepted(merge, others, initial);
      RunOne(MergeDevice(merge), p, step, others);
      StaysTracking(merge, p, None, others, step);
    }
  }

  lemma {:induction false} NothingToAdd<R>(list: Rules<R>, desired: Rules<R>)
    requires Within(list, desired) && Additions(list, desired) == map[]
    ensures list == desired
  {
    forall k | k in desired ensures k in list { assert k !in Additions(list, desired); }
    assert forall k :: k in list <==> k in desired;
  }

  lemma {:induction false} AddOnTrack<R>(merge: (R, R) -> R, p: Progress<MergeState<R>, Content<R>, Owned<R>>,
        list: Rules<R>, desired: Rules<R>, others: seq<string>)
    requires Tracking(p, Some(list), others) && Unrepeated(desired) && Within(list, desired)
    ensures Tracking(Run(MergeDevice(merge), p, AddSteps(list, desired), others), Some(desired), others)
  {
    hide Tracking, Wrote;
    if Additions(list, desired) == map[] {
      NothingToAdd(list, desired);
    } else {
      var step := Step(None, Request("PATCH", List(Additions(list, desired))), false, Some(desired));
      AdditionsAccepted(merge, list, others, desired);
      RunOne(MergeDevice(merge), p, step, others);
      StaysTracking(merge, p, Some(list), others, step);
    }
  }

  lemma {:induction false} PlanOnTrack<R>(merge: (R, R) -> R, p: Progress<MergeState<R>, Content<R>, Owned<R>>,
        family: Family<R>, start: Owned<R>, desired: Rules<R>, others: seq<string>)
    requires Tracking(p, start, others) && Unrepeated(desired)
    ensures Tracking(Run(MergeDevice(merge), p, Plan(family, start, desired), others), Some(desired), others)
  {
    hide Tracking, Run, CreateSteps, DeleteSteps, AddSteps, Remaining, Base;
    var d := MergeDevice(merge);
    var base := Base(family, start, desired);
    var keys := Ascending(base.Keys);
    var create, deletes := CreateSteps(family, start, desired), DeleteSteps(base, desired, keys);
    var left := Remaining(base, desired, keys);
    CreateOnTrack(merge, p, family, start, desired, others);
    var created := Run(d, p, create, others);
    DeletesOnTrack(merge, created, base, desired, keys, others, |keys|);
    assert keys[..|keys|] == keys;
    RunJoin(d, p, create, deletes, others);
    LeftIsDesired(base, desired, keys);
    AddOnTrack(merge, Run(d, p, create + deletes, others), left, desired, others);
    RunJoin(d, p, create + deletes, AddSteps(left, desired), others);
  }

  /** The REST sequences of the list, if any, are in range. */
  predicate Numbered<R>(list: Owned<R>) { list.None? || InSequence(list.value.Keys) }

  /** From every state and whatever its merging of rules does, the device refuses nothing
      and ends with the desired rules; a probing family declines to start exactly when the
      list differs and some sequence is out of range. */
  lemma {:induction false} Converges<R>(merge: (R, R) -> R, state: MergeState<R>, family: Family<R>, desired: Rules<R>)
    requires Valid(family, desired)
    ensures var r := Applied(MergeDevice(merge), state, family, desired);
            && AllDone(r.session.sent)
            && (r.failure.None? <==> !family.probed || state.list == Some(desired) || Numbered(state.list))
            && r.session.state == (if r.failure.None? then state.(list := Some(desired)) else state)
            && (r.failure.None? ==> r.current == Some(desired))
  {
    hide Plan, Run, MergeSend;
    var d := MergeDevice(merge);
    var p := Progress(Fresh<MergeState<R>, Content<R>>(state), state.list, [], None);
    PlanOnTrack(merge, p, family, state.list, desired, state.others);
  }

  // ---- how many deletions are sent ----

  function Deletions<R>(sent: seq<Sent<Content<R>>>): (n: nat) {
    if sent == [] then 0
    else Deletions(sent[..|sent| - 1]) + if sent[|sent| - 1].request.verb == "DELETE" then 1 else 0
  }

  lemma {:induction false} DeletionsOfPlan<R>(sent: seq<Sent<Content<R>>>, steps: seq<RuleStep<R>>)
    requires SentSteps(sent, steps) && |sent| == |steps|
    ensures Deletions(sent) == Deletes(steps)
  {
    if sent != [] {
      DeletionsOfPlan(sent[..|sent| - 1], steps[..|steps| - 1]);
    }
  }

  /** The deletions that reach the device: one for each changed or removed sequence, and one
      for the temporary rule of a list created empty; none where nothing changes or where a
      probing family declines to start. */
  lemma {:induction false} DeletionsSent<R>(merge: (R, R) -> R, state: MergeState<R>, family: Family<R>,
        desired: Rules<R>)
    requires Valid(family, desired)
    ensures var r := Applied(MergeDevice(merge), state, family, desired);
            Deletions(r.session.sent) ==
            if r.failure.Some? then 0
            else if state.list.Some? then |ChangedSequences(state.list.value, desired)|
            else if desired == map[] then 1 else 0
  {
    hide Plan, Run, MergeSend;
    var d := MergeDevice(merge);
    var r, plan := Applied(d, state, family, desired), Plan(family, state.list, desired);
    Converges(merge, state, family, desired);
    ArbitraryDevice(d, state, family, desired);
    DeleteCount(family, state.list, desired);
    if r.failure.None? && !(family.probed && state.list == Some(desired)) {
      PlanOnce(merge, state, family, desired);
      DeletionsOfPlan(r.session.sent, plan);
    }
  }

  lemma {:induction false} PlanOnce<R>(merge: (R, R) -> R, state: MergeState<R>, family: Family<R>, desired: Rules<R>)
    requires Applied(MergeDevice(merge), state, family, desired).failure.None?
    requires !(family.probed && state.list == Some(desired))
    ensures |Applied(MergeDevice(merge), state, family, desired).session.sent| == |Plan(family, state.list, desired)|
  {
    hide Plan, Run, MergeSend;
    var d, plan := MergeDevice(merge), Plan(family, state.list, desired);
    PlanSafe(family, state.list, desired);
    RunFollows(d, state, state.list, plan, state.others);
  }
}
