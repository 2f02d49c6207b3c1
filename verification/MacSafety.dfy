/** What MAC access-list reconciliation guarantees on an arbitrary device. */
module MacSafety {
  import opened Prelude
  import opened Sorting
  import opened MacCodec
  import opened MacEntries
  import opened Updating
  import opened CheckedWrites
  import opened MacReconcile

  /** The list a shrinking list is cut from: the old one, or the temporary rule a list that
      is to be empty is created with. */
  function Source(start: Owned, desired: seq<MacRule>): (r: seq<MacRule>) {
    if start.Some? then start.value else if desired == [] then [TEMPORARY.rule] else desired
  }

  /** A list the device may be left with at any step: it keeps, in order, the rules of all
      retained entries, and is cut from the old list or is exactly the new one. */
  ghost predicate Safe(kept: seq<MacRule>, start: Owned, desired: seq<MacRule>, list: Owned) {
    && list.Some?
    && (list.value == desired || (Subsequence(list.value, Source(start, desired)) && Subsequence(kept, list.value)))
  }

  ghost predicate AllSafe(kept: seq<MacRule>, start: Owned, desired: seq<MacRule>, steps: seq<MacStep>) {
    Mutating(steps) && forall i :: 0 <= i < |steps| ==> Safe(kept, start, desired, steps[i].expected)
  }

  lemma {:induction false} LeftWithin(base: seq<MacEntry>, target: seq<MacEntry>, i: nat, j: nat)
    requires i <= j <= |base|
    ensures Subsequence(RulesOf(Left(base, target, i)), RulesOf(Left(base, target, j)))
    decreases j - i
  {
    hide Left, Subsequence;
    if i == j {
      SubsequenceRefl(RulesOf(Left(base, target, j)));
    } else {
      LeftWithin(base, target, i + 1, j);
      LeftStep(base, target, i);
      RulesOfRemoved(Left(base, target, i + 1), i);
      SubsequenceRemove(RulesOf(Left(base, target, i + 1)), RulesOf(Left(base, target, j)), i);
    }
  }

  lemma {:induction false} DeletesSafe(name: string, base: seq<MacEntry>, target: seq<MacEntry>, start: Owned,
        desired: seq<MacRule>, i: nat)
    requires i <= |base| && RulesOf(base) == Source(start, desired)
    ensures AllSafe(RulesOf(Left(base, target, 0)), start, desired, DeleteSteps(name, base, target, i))
    decreases |base| - i
  {
    hide Left, Subsequence, RulesOf;
    if i < |base| {
      DeletesSafe(name, base, target, start, desired, i + 1);
      LeftWithin(base, target, 0, i);
      LeftWithin(base, target, i, |base|);
      LeftAll(base, target);
    }
  }

  lemma {:induction false} SafeAppend(kept: seq<MacRule>, start: Owned, desired: seq<MacRule>, a: seq<MacStep>,
        b: seq<MacStep>)
    requires AllSafe(kept, start, desired, a) && AllSafe(kept, start, desired, b)
    ensures AllSafe(kept, start, desired, a + b)
  {
    hide Safe;
  }

  /** The retained entries: those whose ID and rule the target has. */
  function Kept(start: Owned, entries: seq<MacEntry>, target: seq<MacEntry>): (r: seq<MacRule>) {
    RulesOf(Left(Base(start, entries, target), target, 0))
  }

  lemma {:induction false} BaseIsSource(start: Owned, entries: seq<MacEntry>, target: seq<MacEntry>)
    requires start.Some? ==> RulesOf(entries) == start.value
    ensures RulesOf(Base(start, entries, target)) == Source(start, RulesOf(target))
  {
    assert target == [] ==> RulesOf([TEMPORARY]) == [TEMPORARY.rule];
    assert RulesOf(target) == [] <==> target == [];
  }

  lemma {:induction false} PlanSafe(name: string, start: Owned, entries: seq<MacEntry>, target: seq<MacEntry>)
    requires start.Some? ==> RulesOf(entries) == start.value
    ensures AllSafe(Kept(start, entries, target), start, RulesOf(target), Plan(name, start, entries, target))
  {
    hide Left, DeleteSteps, Additions, AllSafe, Base;
    var desired := RulesOf(target);
    var base := Base(start, entries, target);
    var kept := Kept(start, entries, target);
    BaseIsSource(start, entries, target);
    DeletesSafe(name, base, target, start, desired, 0);
    EndsSafe(name, start, entries, target);
    var create, deletes := CreateSteps(name, start, entries, target), DeleteSteps(name, base, target, 0);
    SafeAppend(kept, start, desired, create, deletes);
    SafeAppend(kept, start, desired, create + deletes, AddSteps(name, Left(base, target, 0), target));
  }

  lemma {:induction false} EndsSafe(name: string, start: Owned, entries: seq<MacEntry>, target: seq<MacEntry>)
    requires start.Some? ==> RulesOf(entries) == start.value
    ensures var kept := Kept(start, entries, target);
            && AllSafe(kept, start, RulesOf(target), CreateSteps(name, start, entries, target))
            && AllSafe(kept, start, RulesOf(target),
               AddSteps(name, Left(Base(start, entries, target), target, 0), target))
  {
    hide Left, Additions, Subsequence, RulesOf;
    if start.None? {
      var base := Base(start, entries, target);
      BaseIsSource(start, entries, target);
      LeftWithin(base, target, 0, |base|);
      LeftAll(base, target);
      SubsequenceRefl(RulesOf(base));
    }
  }

  // ---- the plan ends at the desired list ----

  lemma {:induction false} EntriesUnique(a: seq<MacEntry>, b: seq<MacEntry>)
    requires Numbered(a) && Numbered(b) && forall e :: e in a <==> e in b
    ensures a == b
  {
    forall k ensures k in Ids(a) <==> k in Ids(b) {
      if k in Ids(a) {
        var i: nat :| i < |a| && Ids(a)[i] == k;
        assert a[i] in a;
        var j: nat :| j < |b| && b[j] == a[i];
        assert Ids(b)[j] == k;
      }
      if k in Ids(b) {
        var i: nat :| i < |b| && Ids(b)[i] == k;
        assert b[i] in b;
        var j: nat :| j < |a| && a[j] == b[i];
        assert Ids(a)[j] == k;
      }
    }
    AscendingUnique(Ids(a), Ids(b));
    forall i | 0 <= i < |a| ensures |b| == |a| && a[i] == b[i] {
      assert |Ids(a)| == |a| && |Ids(b)| == |b|;
      assert a[i] in b;
      var j: nat :| j < |b| && b[j] == a[i];
      assert Ids(a)[i] == Ids(b)[i];
    }
  }

  lemma {:induction false} FilterNumbered(s: seq<MacEntry>, keep: MacEntry -> bool)
    requires Numbered(s)
    ensures Numbered(Filter(s, keep))
  {
    hide Numbered;
    if s != [] {
      var rest := Filter(s[1..], keep);
      TailNumbered(s);
      FilterNumbered(s[1..], keep);
      assert [] + rest == rest;
      if keep(s[0]) { HeadNumbered(s, rest); }
    }
  }

  lemma {:induction false} TailNumbered(s: seq<MacEntry>)
    requires Numbered(s) && s != []
    ensures Numbered(s[1..])
  {
  }

  lemma {:induction false} HeadNumbered(s: seq<MacEntry>, rest: seq<MacEntry>)
    requires Numbered(s) && s != [] && Numbered(rest) && forall e :: e in rest ==> e in s[1..]
    ensures Numbered([s[0]] + rest)
  {
    forall j | 0 <= j < |rest| ensures s[0].id < rest[j].id {
      assert rest[j] in rest;
      assert rest[j] in s[1..];
    }
  }

  lemma {:induction false} NothingToAdd(base: seq<MacEntry>, target: seq<MacEntry>)
    requires Numbered(base) && Numbered(target) && Additions(Left(base, target, 0), target) == []
    ensures Left(base, target, 0) == target
  {
    hide Numbered;
    var kept := Left(base, target, 0);
    assert base[..0] + Filter(base[0..], Wanted(target)) == Filter(base, Wanted(target)) by {
      assert base[0..] == base;
    }
    FilterNumbered(base, Wanted(target));
    forall e | e in target ensures e in kept {
      assert e !in Additions(kept, target);
    }
    EntriesUnique(kept, target);
  }

  lemma {:induction false} DeletesEnd(name: string, base: seq<MacEntry>, target: seq<MacEntry>, i: nat)
    requires i <= |base|
    ensures var steps := DeleteSteps(name, base, target, i);
            Some(RulesOf(Left(base, target, i))) ==
            if steps == [] then Some(RulesOf(base)) else steps[|steps| - 1].expected
    decreases |base| - i
  {
    hide Left, RulesOf;
    LeftAll(base, target);
    if i < |base| {
      DeletesEnd(name, base, target, i + 1);
      LeftStep(base, target, i);
    }
  }

  lemma {:induction false} InitialNumbered(target: seq<MacEntry>)
    requires Numbered(target)
    ensures Numbered(Initial(target))
  {
  }

  lemma {:induction false} PlanEnds(name: string, start: Owned, entries: seq<MacEntry>, target: seq<MacEntry>)
    requires Numbered(entries) && Numbered(target) && (start.Some? ==> RulesOf(entries) == start.value)
    ensures var plan := Plan(name, start, entries, target);
            Some(RulesOf(target)) == if plan == [] then start else plan[|plan| - 1].expected
  {
    hide Left, DeleteSteps, Additions, Numbered, RulesOf;
    var base := Base(start, entries, target);
    InitialNumbered(target);
    DeletesEnd(name, base, target, 0);
    if Additions(Left(base, target, 0), target) == [] {
      NothingToAdd(base, target);
    }
  }

  // ---- every device ----

  /** The rules of the entries that the callback will leave alone. */
  function KeptThroughout<S>(d: MacDevice<S>, state: S, name: string, desired: seq<MacRule>): (r: seq<MacRule>)
    requires |desired| <= LAST_ID
  {
    var (s0, view) := AfterLook(Lift(d, name), Fresh<S, Content>(state));
    if view.None? then []
    else
      var (_, reply) := AfterCollection(d, s0);
      var matched := Entries(reply, name, view.value.owned);
      if matched.None? then []
      else
        EntriesSound(reply, name, view.value.owned);
        Kept(view.value.owned, matched.value, Target(matched.value, desired))
  }

  ghost predicate AcceptedSafely(accepted: seq<View<Owned>>, kept: seq<MacRule>, before: View<Owned>,
        desired: seq<MacRule>) {
    forall i :: 0 <= i < |accepted| ==>
      accepted[i].unowned == before.unowned && Safe(kept, before.owned, desired, accepted[i].owned)
  }

  /** Whatever the device answers: every accepted readback is safe and leaves all other
      configuration as it was; success means the desired rules were read back, in order,
      after the whole plan was sent and accepted. */
  lemma {:induction false} ArbitraryDevice<S>(d: MacDevice<S>, state: S, name: string, desired: seq<MacRule>)
    requires |desired| <= LAST_ID && AfterLook(Lift(d, name), Fresh<S, Content>(state)).1.Some?
    ensures var r := Applied(d, state, name, desired);
            var before := AfterLook(Lift(d, name), Fresh<S, Content>(state)).1.value;
            && AcceptedSafely(r.accepted, KeptThroughout(d, state, name, desired), before, desired)
            && (r.failure.None? ==>
                  && r.current == Some(desired) && r.session.err.None?
                  && (r.accepted != [] ==> r.accepted[|r.accepted| - 1].owned == Some(desired)))
  {
    hide Plan, Run, Safe, Entries, Target, Lift, Kept, Numbered;
    var (s0, view) := AfterLook(Lift(d, name), Fresh<S, Content>(state));
    var start := view.value.owned;
    var (s1, reply) := AfterCollection(d, s0);
    var matched := Entries(reply, name, start);
    if start != Some(desired) && matched.Some? {
      EntriesSound(reply, name, start);
      var target := Target(matched.value, desired);
      var plan := Plan(name, start, matched.value, target);
      PlanSafe(name, start, matched.value, target);
      PlanEnds(name, start, matched.value, target);
      RunFollows(Lift(d, name), s1.state, start, plan, view.value.unowned);
    }
  }

  /** If neither the old list nor the new one repeats a rule, no list in between does. */
  lemma {:induction false} NoDuplicateOnTheWay(kept: seq<MacRule>, start: Owned, desired: seq<MacRule>, list: Owned)
    requires Distinct(desired) && (start.Some? ==> Distinct(start.value))
    requires Safe(kept, start, desired, list)
    ensures Distinct(list.value)
  {
    hide Subsequence;
    if list.value != desired {
      SubsequenceDistinct(list.value, Source(start, desired));
    }
  }
}
