/** What access-list reconciliation guarantees on an arbitrary device. */
module RuleSafety {
  import opened Prelude
  import opened Sorting
  import opened Updating
  import opened CheckedWrites
  import opened RuleReconcile

  ghost predicate Within<R>(part: Rules<R>, whole: Rules<R>) {
    forall k :: k in part ==> k in whole && part[k] == whole[k]
  }

  /** A list the device may be left with at any step: every sequence whose rule does not
      change is there, and the rest is part of the old list, or exactly the new one; a list
      being created may first hold its initial rules. */
  ghost predicate Safe<R>(family: Family<R>, start: Owned<R>, desired: Rules<R>, list: Owned<R>) {
    && list.Some?
    && (start.Some? ==> forall k :: Keeps(start.value, desired, k) ==> k in list.value && list.value[k] == desired[k])
    && (list.value == desired || Within(list.value, Base(family, start, desired)))
  }

  ghost predicate AllSafe<R>(family: Family<R>, start: Owned<R>, desired: Rules<R>, steps: seq<RuleStep<R>>) {
    forall i :: 0 <= i < |steps| ==> Safe(family, start, desired, steps[i].expected)
  }

  lemma {:induction false} DeletesSafe<R>(family: Family<R>, start: Owned<R>, desired: Rules<R>, keys: seq<Int64>)
    ensures AllSafe(family, start, desired, DeleteSteps(Base(family, start, desired), desired, keys))
    ensures Mutating(DeleteSteps(Base(family, start, desired), desired, keys))
  {
    hide Base;
    if keys != [] {
      DeletesSafe(family, start, desired, keys[..|keys| - 1]);
      RemainingSafe(family, start, desired, keys);
    }
  }

  lemma {:induction false} RemainingSafe<R>(family: Family<R>, start: Owned<R>, desired: Rules<R>, keys: seq<Int64>)
    ensures Safe(family, start, desired, Some(Remaining(Base(family, start, desired), desired, keys)))
  {
  }

  lemma {:induction false} PlanSafe<R>(family: Family<R>, start: Owned<R>, desired: Rules<R>)
    ensures AllSafe(family, start, desired, Plan(family, start, desired)) && Mutating(Plan(family, start, desired))
  {
    var base := Base(family, start, desired);
    hide Remaining, DeleteSteps, Additions, Base, Safe, AllSafe, Mutating;
    var keys := Ascending(base.Keys);
    DeletesSafe(family, start, desired, keys);
    EndsSafe(family, start, desired, Remaining(base, desired, keys));
    var create, deletes := CreateSteps(family, start, desired), DeleteSteps(base, desired, keys);
    SafeAppend(family, start, desired, create, deletes);
    SafeAppend(family, start, desired, create + deletes, AddSteps(Remaining(base, desired, keys), desired));
  }

  lemma {:induction false} EndsSafe<R>(family: Family<R>, start: Owned<R>, desired: Rules<R>, left: Rules<R>)
    ensures AllSafe(family, start, desired, AddSteps(left, desired)) && Mutating(AddSteps(left, desired))
    ensures AllSafe(family, start, desired, CreateSteps(family, start, desired))
            && Mutating(CreateSteps(family, start, desired))
  {
  }

  lemma {:induction false} SafeAppend<R>(family: Family<R>, start: Owned<R>, desired: Rules<R>, a: seq<RuleStep<R>>,
        b: seq<RuleStep<R>>)
    requires AllSafe(family, start, desired, a) && AllSafe(family, start, desired, b) && Mutating(a) && Mutating(b)
    ensures AllSafe(family, start, desired, a + b) && Mutating(a + b)
  {
    hide Safe;
  }

  // ---- the plan ends at the desired list ----

  lemma {:induction false} DeletesEnd<R>(start: Rules<R>, desired: Rules<R>, keys: seq<Int64>)
    ensures var steps := DeleteSteps(start, desired, keys);
            Some(Remaining(start, desired, keys)) == if steps == [] then Some(start) else steps[|steps| - 1].expected
  {
    if keys == [] {
      RemainingStart(start, desired);
    } else {
      var n := |keys| - 1;
      DeletesEnd(start, desired, keys[..n]);
      if Keeps(start, desired, keys[n]) {
        assert keys == keys[..n] + [keys[n]];
        assert Remaining(start, desired, keys) == Remaining(start, desired, keys[..n]);
      }
    }
  }

  lemma {:induction false} AdditionsComplete<R>(base: Rules<R>, desired: Rules<R>, keys: seq<Int64>)
    requires forall k :: k in keys <==> k in base
    ensures Additions(Remaining(base, desired, keys), desired) == map[] <==> Remaining(base, desired, keys) == desired
  {
    var left := Remaining(base, desired, keys);
    if Additions(left, desired) == map[] {
      forall k | k in desired ensures k in left && left[k] == desired[k] {
        assert k !in Additions(left, desired);
      }
      forall k | k in left ensures k in desired && left[k] == desired[k] {
        assert k in keys;
      }
      assert left.Keys == desired.Keys;
      assert left == desired;
    }
  }

  lemma {:induction false} PlanEnds<R>(family: Family<R>, start: Owned<R>, desired: Rules<R>)
    ensures var plan := Plan(family, start, desired);
            Some(desired) == if plan == [] then start else plan[|plan| - 1].expected
  {
    hide DeleteSteps, Remaining, Additions, Ascends, CreateSteps;
    var base := Base(family, start, desired);
    var keys := Ascending(base.Keys);
    DeletesEnd(base, desired, keys);
    AdditionsComplete(base, desired, keys);
    CreateEnds(family, start, desired);
  }

  lemma {:induction false} CreateEnds<R>(family: Family<R>, start: Owned<R>, desired: Rules<R>)
    ensures var steps := CreateSteps(family, start, desired);
            Some(Base(family, start, desired)) == if steps == [] then start else steps[|steps| - 1].expected
  {
  }

  // ---- how many entries are deleted ----

  function Deletes<R>(steps: seq<RuleStep<R>>): (n: nat) {
    if steps == [] then 0
    else Deletes(steps[..|steps| - 1]) + if steps[|steps| - 1].request.verb == "DELETE" then 1 else 0
  }

  function ChangedSequences<R(==)>(start: Rules<R>, desired: Rules<R>): (r: set<Int64>) {
    set k | k in start && !Keeps(start, desired, k)
  }

  lemma {:induction false} DeletesAppend<R>(a: seq<RuleStep<R>>, b: seq<RuleStep<R>>)
    ensures Deletes(a + b) == Deletes(a) + Deletes(b)
  {
    if b == [] {
      assert a + b == a;
    } else {
      var n := |b| - 1;
      assert (a + b)[..|a| + n] == a + b[..n];
      DeletesAppend(a, b[..n]);
    }
  }

  function ChangedAmong<R(==)>(start: Rules<R>, desired: Rules<R>, keys: seq<Int64>): (r: set<Int64>) {
    set k | k in keys && !Keeps(start, desired, k)
  }

  lemma {:induction false} ChangedStep<R>(start: Rules<R>, desired: Rules<R>, keys: seq<Int64>)
    requires Ascends(keys) && keys != []
    ensures |ChangedAmong(start, desired, keys)| ==
            |ChangedAmong(start, desired, keys[..|keys| - 1])| +
            if Keeps(start, desired, keys[|keys| - 1]) then 0 else 1
  {
    hide Keeps, Ascends, ChangedAmong;
    var front, k := keys[..|keys| - 1], keys[|keys| - 1];
    LastApart(keys);
    ChangedMore(start, desired, front, k);
    assert keys == front + [k];
  }

  lemma {:induction false} LastApart(keys: seq<Int64>)
    requires Ascends(keys) && keys != []
    ensures keys[|keys| - 1] !in keys[..|keys| - 1]
  {
    var n := |keys| - 1;
    forall j | 0 <= j < n ensures keys[..n][j] != keys[n] { assert keys[j] < keys[n]; }
  }

  lemma {:induction false} ChangedMore<R>(start: Rules<R>, desired: Rules<R>, front: seq<Int64>, k: Int64)
    requires k !in front
    ensures |ChangedAmong(start, desired, front + [k])| ==
            |ChangedAmong(start, desired, front)| + if Keeps(start, desired, k) then 0 else 1
  {
    hide Keeps;
    var before := ChangedAmong(start, desired, front);
    assert ChangedAmong(start, desired, front + [k]) == if Keeps(start, desired, k) then before else before + {k};
  }

  lemma {:induction false} CountDeletes<R>(start: Rules<R>, desired: Rules<R>, keys: seq<Int64>)
    requires Ascends(keys)
    ensures Deletes(DeleteSteps(start, desired, keys)) == |ChangedAmong(start, desired, keys)|
  {
    hide Keeps, Remaining, ChangedAmong, DeleteSteps;
    if keys == [] {
      NothingDeleted(start, desired);
    } else {
      var n := |keys| - 1;
      CountDeletes(start, desired, keys[..n]);
      ChangedStep(start, desired, keys);
      assert keys[..n + 1] == keys;
      DeletesStep(start, desired, keys, n);
      if !Keeps(start, desired, keys[n]) {
        var before := DeleteSteps(start, desired, keys[..n]);
        var step := Step(None, Request("DELETE", Entry(keys[n])), true, Some(Remaining(start, desired, keys)));
        assert (before + [step])[..|before|] == before;
        assert DeleteSteps(start, desired, keys) == before + [step];
      } else {
        assert DeleteSteps(start, desired, keys) == DeleteSteps(start, desired, keys[..n]);
      }
    }
  }

  lemma {:induction false} NothingDeleted<R>(start: Rules<R>, desired: Rules<R>)
    ensures DeleteSteps(start, desired, []) == [] && ChangedAmong(start, desired, []) == {}
  {
  }

  /** One DELETE for each changed or removed sequence, and one more for the temporary rule
      of a list that is created empty. */
  lemma {:induction false} DeleteCount<R>(family: Family<R>, start: Owned<R>, desired: Rules<R>)
    ensures Deletes(Plan(family, start, desired)) ==
            if start.Some? then |ChangedSequences(start.value, desired)|
            else if desired == map[] then 1 else 0
  {
    hide DeleteSteps, Remaining, Additions, ChangedAmong, ChangedSequences, Keeps;
    var base := Base(family, start, desired);
    var keys := Ascending(base.Keys);
    CountDeletes(base, desired, keys);
    ChangedOfBase(family, start, desired, keys);
    DeletesAppend(CreateSteps(family, start, desired), DeleteSteps(base, desired, keys));
    DeletesAppend(CreateSteps(family, start, desired) + DeleteSteps(base, desired, keys),
      AddSteps(Remaining(base, desired, keys), desired));
  }

  lemma {:induction false} ChangedOfBase<R>(family: Family<R>, start: Owned<R>, desired: Rules<R>, keys: seq<Int64>)
    requires forall k :: k in keys <==> k in Base(family, start, desired)
    ensures |ChangedAmong(Base(family, start, desired), desired, keys)| ==
            if start.Some? then |ChangedSequences(start.value, desired)|
            else if desired == map[] then 1 else 0
  {
    var base := Base(family, start, desired);
    assert ChangedAmong(base, desired, keys) == ChangedSequences(base, desired);
    if start.None? {
      assert ChangedSequences(base, desired) == if desired == map[] then {1} else {};
    }
  }

  // ---- every device ----

  /** Whatever the device answers: every accepted readback is safe and leaves all other
      configuration as it was; a callback that reports success has seen the desired rules,
      sent its whole plan and had every mutation accepted. */
  lemma {:induction false} ArbitraryDevice<S, R>(d: RuleDevice<S, R>, state: S, family: Family<R>, desired: Rules<R>)
    requires AfterLook(d, Fresh<S, Content<R>>(state)).1.Some?
    ensures var r := Applied(d, state, family, desired);
            var before := AfterLook(d, Fresh<S, Content<R>>(state)).1.value;
            && (forall i :: 0 <= i < |r.accepted| ==>
                  r.accepted[i].unowned == before.unowned && Safe(family, before.owned, desired, r.accepted[i].owned))
            && SentSteps(r.session.sent, Plan(family, before.owned, desired))
            && (r.failure.None? ==>
                  && r.current == Some(desired) && r.session.err.None?
                  && (r.accepted != [] ==> r.accepted[|r.accepted| - 1].owned == Some(desired))
                  && (before.owned != Some(desired) ==> |r.session.sent| == |Plan(family, before.owned, desired)|))
  {
    hide Plan, Run, Safe;
    var (s0, view) := AfterLook(d, Fresh<S, Content<R>>(state));
    var start := view.value.owned;
    var plan := Plan(family, start, desired);
    PlanSafe(family, start, desired);
    PlanEnds(family, start, desired);
    var (s1, held) := if family.probed then AfterProbe(d, s0, Sequences(start)) else (s0, true);
    RunFollows(d, s1.state, start, plan, view.value.unowned);
  }

  /** Without a readable configuration nothing is sent. */
  lemma {:induction false} UnreadableSendsNothing<S, R>(d: RuleDevice<S, R>, state: S, family: Family<R>,
        desired: Rules<R>)
    requires AfterLook(d, Fresh<S, Content<R>>(state)).1.None?
    ensures Applied(d, state, family, desired).failure.Some? && Applied(d, state, family, desired).session.sent == []
  {
  }

  /** What distinguishes the families: one that compares sequences sends nothing to a list that
      differs from the desired one while REST does not have exactly its sequences; one that
      does not is never held up by them. */
  lemma {:induction false} SequencesCompared<S, R>(d: RuleDevice<S, R>, state: S, family: Family<R>, desired: Rules<R>)
    requires AfterLook(d, Fresh<S, Content<R>>(state)).1.Some?
    ensures var r := Applied(d, state, family, desired);
            var (s, view) := AfterLook(d, Fresh<S, Content<R>>(state));
            var start := view.value.owned;
            (r.failure == Some(Stale) <==>
               && family.probed && start != Some(desired)
               && !d.probe(s.state, if start.Some? then Some(start.value.Keys) else None).1)
            && (r.failure == Some(Stale) ==> r.session.sent == [])
  {
    hide Plan, Run;
    var (s, view) := AfterLook(d, Fresh<S, Content<R>>(state));
    var start := view.value.owned;
    var (s1, held) := if family.probed then AfterProbe(d, s, Sequences(start)) else (s, true);
    UnguardedPlan(family, start, desired);
    NeverStale(d, Progress(s1, start, [], None), Plan(family, start, desired), view.value.unowned);
  }

  ghost predicate Unguarded<R>(steps: seq<RuleStep<R>>) { forall i :: 0 <= i < |steps| ==> steps[i].guard.None? }

  lemma {:induction false} UnguardedDeletes<R>(start: Rules<R>, desired: Rules<R>, keys: seq<Int64>)
    ensures Unguarded(DeleteSteps(start, desired, keys))
  {
    hide Keeps, Remaining;
    if keys != [] { UnguardedDeletes(start, desired, keys[..|keys| - 1]); }
  }

  lemma {:induction false} UnguardedPlan<R>(family: Family<R>, start: Owned<R>, desired: Rules<R>)
    ensures Unguarded(Plan(family, start, desired))
  {
    hide DeleteSteps, Remaining, Additions, AddSteps, CreateSteps, Base, Ascends;
    var base := Base(family, start, desired);
    var keys := Ascending(base.Keys);
    UnguardedDeletes(base, desired, keys);
    UnguardedEnds(family, start, desired, Remaining(base, desired, keys));
  }

  lemma {:induction false} UnguardedEnds<R>(family: Family<R>, start: Owned<R>, desired: Rules<R>, left: Rules<R>)
    ensures Unguarded(CreateSteps(family, start, desired)) && Unguarded(AddSteps(left, desired))
  {
  }

  lemma {:induction false} NeverStale<S, R>(d: RuleDevice<S, R>, p: Progress<S, Content<R>, Owned<R>>,
        steps: seq<RuleStep<R>>, unowned: seq<string>)
    requires Unguarded(steps) && p.failure != Some(Stale)
    ensures Run(d, p, steps, unowned).failure != Some(Stale)
  {
    if steps != [] { NeverStale(d, p, steps[..|steps| - 1], unowned); }
  }

  /** A list in between repeats a rule only at two sequences where the old list already
      repeated it; so if the old list repeats none, nor does any list in between. */
  lemma {:induction false} NoDuplicateOnTheWay<R>(family: Family<R>, start: Owned<R>, desired: Rules<R>, list: Owned<R>)
    requires Unrepeated(desired) && Safe(family, start, desired, list)
    ensures forall i, j :: i in list.value && j in list.value && i != j && list.value[i] == list.value[j] ==>
                             && start.Some? && i in start.value && j in start.value
                             && start.value[i] == start.value[j] == list.value[i]
    ensures start.None? || Unrepeated(start.value) ==> Unrepeated(list.value)
  {
  }
}
