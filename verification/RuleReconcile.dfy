/** Reconciling an access list keyed by sequence number: extended IPv4 and IPv6 lists and
    standard lists share this algorithm, which is stated once over the rule type. */
module RuleReconcile {
  import opened Prelude
  import opened Sorting
  import opened Updating
  import opened CheckedWrites

  type Rules<R> = map<Int64, R>

  const LAST_SEQUENCE := 65000

  /** A PATCH of the ACL collection, or one entry's resource. */
  datatype Content<R> = List(rules: Rules<R>) | Entry(sequence: Int64)

  /** What distinguishes the families: which names and rules are legal, the rule an empty list
      is created with, and whether REST sequences are compared before writing. */
  datatype Family<!R> = Family(named: string -> bool, legal: R -> bool, temporary: R, probed: bool)

  type Owned<R> = Option<Rules<R>>
  type Expected = Option<set<Int64>>
  type RuleDevice<!S, !R> = Device<S, Content<R>, Owned<R>, Expected>
  type RuleStep<R> = Step<Content<R>, Owned<R>, Expected>

  /** No rule appears at two sequences. */
  predicate Unrepeated<R(==)>(rules: Rules<R>) {
    forall i, j :: i in rules && j in rules && rules[i] == rules[j] ==> i == j
  }

  predicate InSequence(sequences: set<Int64>) {
    forall k :: k in sequences ==> 1 <= k <= LAST_SEQUENCE
  }

  predicate Valid<R(==)>(family: Family<R>, desired: Rules<R>) {
    && InSequence(desired.Keys)
    && (forall k :: k in desired ==> family.legal(desired[k]))
    && Unrepeated(desired)
  }

  /** A legal name, sequences in range, every rule legal, and no rule under two sequences. */
  method Validate<R(==)>(family: Family<R>, name: string, desired: Rules<R>) returns (ok: bool)
    ensures ok <==> family.named(name) && Valid(family, desired)
  {
    if !family.named(name) {
      return false;
    }
    var seen: map<R, Int64> := map[];
    var todo := desired.Keys;
    while todo != {}
      invariant todo <= desired.Keys
      invariant forall k :: k in desired && k !in todo ==>
                1 <= k <= LAST_SEQUENCE && family.legal(desired[k]) && desired[k] in seen && seen[desired[k]] == k
      invariant forall r :: r in seen ==> seen[r] in desired && seen[r] !in todo && desired[seen[r]] == r
      decreases |todo|
    {
      var k :| k in todo;
      todo := todo - {k};
      if k < 1 || k > 65000 || !family.legal(desired[k]) || desired[k] in seen {
        return false;
      }
      seen := seen[desired[k] := k];
    }
    return true;
  }

  // ---- the plan ----

  predicate Keeps<R(==)>(start: Rules<R>, desired: Rules<R>, k: Int64) {
    k in start && k in desired && start[k] == desired[k]
  }

  /** The list once the given sequences have been considered for deletion. */
  function Remaining<R(==)>(start: Rules<R>, desired: Rules<R>, keys: seq<Int64>): (r: Rules<R>) {
    map k | k in start && (k in keys ==> Keeps(start, desired, k)) :: start[k]
  }

  function DeleteSteps<R(==)>(start: Rules<R>, desired: Rules<R>, keys: seq<Int64>): (r: seq<RuleStep<R>>) {
    if keys == [] then []
    else
      var n := |keys| - 1;
      var before := DeleteSteps(start, desired, keys[..n]);
      if Keeps(start, desired, keys[n]) then before
      else before + [Step(None, Request("DELETE", Entry(keys[n])), true, Some(Remaining(start, desired, keys)))]
  }

  function Additions<R(==)>(current: Rules<R>, desired: Rules<R>): (r: Rules<R>) {
    map k | k in desired && !Keeps(current, desired, k) :: desired[k]
  }

  function AddSteps<R(==)>(current: Rules<R>, desired: Rules<R>): (r: seq<RuleStep<R>>) {
    var additions := Additions(current, desired);
    if additions == map[] then []
    else [Step(None, Request("PATCH", List(additions)), false, Some(desired))]
  }

  function Initial<R(==)>(family: Family<R>, desired: Rules<R>): (r: Rules<R>) {
    if desired == map[] then map[1 := family.temporary] else desired
  }

  function CreateSteps<R(==)>(family: Family<R>, start: Owned<R>, desired: Rules<R>): (r: seq<RuleStep<R>>) {
    if start.Some? then []
    else [Step(None, Request("PATCH", List(Initial(family, desired))), false, Some(Initial(family, desired)))]
  }

  function Base<R(==)>(family: Family<R>, start: Owned<R>, desired: Rules<R>): (r: Rules<R>) {
    if start.Some? then start.value else Initial(family, desired)
  }

  /** All the writes, if every one of them goes through. */
  function Plan<R(==)>(family: Family<R>, start: Owned<R>, desired: Rules<R>): (r: seq<RuleStep<R>>) {
    var base := Base(family, start, desired);
    var keys := Ascending(base.Keys);
    CreateSteps(family, start, desired) + DeleteSteps(base, desired, keys)
      + AddSteps(Remaining(base, desired, keys), desired)
  }

  function Sequences<R>(start: Owned<R>): (r: Expected) {
    if start.Some? then Some(start.value.Keys) else None
  }

  /** The whole callback, from a fresh session. */
  function Applied<S, R(==)>(d: RuleDevice<S, R>, state: S, family: Family<R>, desired: Rules<R>)
    : (r: Progress<S, Content<R>, Owned<R>>) {
    var (s0, view) := AfterLook(d, Fresh(state));
    if view.None? then Progress(s0, None, [], Some(Stopped(None, Unreadable)))
    else
      var start := view.value.owned;
      if family.probed && start == Some(desired) then Progress(s0, start, [], None)
      else
        var (s1, held) := if family.probed then AfterProbe(d, s0, Sequences(start)) else (s0, true);
        if !held then Progress(s1, start, [], Some(Stale))
        else Run(d, Progress(s1, start, [], None), Plan(family, start, desired), view.value.unowned)
  }

  // ---- the writer ----

  lemma {:induction false} RemainingStart<R>(start: Rules<R>, desired: Rules<R>)
    ensures Remaining(start, desired, []) == start
  {
  }

  lemma {:induction false} RemainingStep<R>(start: Rules<R>, desired: Rules<R>, keys: seq<Int64>, i: nat)
    requires i < |keys| && Ascends(keys) && forall k :: k in keys <==> k in start
    ensures var before, after := Remaining(start, desired, keys[..i]), Remaining(start, desired, keys[..i + 1]);
            && keys[i] in before && (Keeps(before, desired, keys[i]) <==> Keeps(start, desired, keys[i]))
            && after == if Keeps(start, desired, keys[i]) then before else before - {keys[i]}
  {
    var before, after := Remaining(start, desired, keys[..i]), Remaining(start, desired, keys[..i + 1]);
    assert keys[..i + 1] == keys[..i] + [keys[i]];
    forall j | 0 <= j < i ensures keys[..i][j] != keys[i] {
      assert keys[j] < keys[i];
    }
    assert keys[i] in keys;
    assert keys[i] in before;
  }

  lemma {:induction false} DeletesStep<R>(start: Rules<R>, desired: Rules<R>, keys: seq<Int64>, i: nat)
    requires i < |keys|
    ensures DeleteSteps(start, desired, keys[..i + 1]) ==
            DeleteSteps(start, desired, keys[..i]) +
            if Keeps(start, desired, keys[i]) then []
            else [Step(None, Request("DELETE", Entry(keys[i])), true, Some(Remaining(start, desired, keys[..i + 1])))]
  {
    hide Keeps, Remaining;
    assert keys[..i + 1][..i] == keys[..i];
  }

  lemma {:induction false} DeletesPrefix<R>(start: Rules<R>, desired: Rules<R>, keys: seq<Int64>, i: nat)
    requires i <= |keys|
    ensures DeleteSteps(start, desired, keys[..i]) <= DeleteSteps(start, desired, keys)
    decreases |keys| - i
  {
    hide DeleteSteps;
    if i == |keys| {
      assert keys[..i] == keys;
    } else {
      DeletesStep(start, desired, keys, i);
      DeletesPrefix(start, desired, keys, i + 1);
    }
  }

  method CollectAdditions<R(==)>(current: Rules<R>, desired: Rules<R>) returns (additions: Rules<R>)
    ensures additions == Additions(current, desired)
  {
    additions := map[];
    var todo := desired.Keys;
    while todo != {}
      invariant todo <= desired.Keys
      invariant additions == map k | k in desired && k !in todo && !Keeps(current, desired, k) :: desired[k]
      decreases |todo|
    {
      var k :| k in todo;
      todo := todo - {k};
      if k !in current || current[k] != desired[k] {
        additions := additions[k := desired[k]];
      }
    }
  }

  /** Removes what changed, in ascending order, each removal checked. */
  method DeleteChanged<S, R(==)>(d: RuleDevice<S, R>, w: Writer<S, Content<R>, Owned<R>>, base: Rules<R>,
        desired: Rules<R>, ghost p: Progress<S, Content<R>, Owned<R>>, ghost done: seq<RuleStep<R>>)
    returns (failure: Option<Failure>)
    requires w.Now(None) == Run(d, p, done, w.unowned) && w.current == Some(base)
    modifies w, w.update
    ensures var keys := Ascending(base.Keys);
            && w.Now(failure) == Run(d, p, done + DeleteSteps(base, desired, keys), w.unowned)
            && (failure.None? ==> w.current == Some(Remaining(base, desired, keys)))
  {
    hide Run, Wrote, DeleteSteps, Remaining, Keeps, Ascends;
    var keys := Ascending(base.Keys);
    ghost var all := DeleteSteps(base, desired, keys);
    NoDeletes(base, desired, keys);
    RemainingStart(base, desired);
    assert done + DeleteSteps(base, desired, keys[..0]) == done;
    for i := 0 to |keys|
      invariant w.Now(None) == Run(d, p, done + DeleteSteps(base, desired, keys[..i]), w.unowned)
      invariant w.current == Some(Remaining(base, desired, keys[..i]))
    {
      var k := keys[i];
      RemainingStep(base, desired, keys, i);
      DeletesStep(base, desired, keys, i);
      if KeptNow(w.current.value, desired, k) {
        assert done + DeleteSteps(base, desired, keys[..i + 1]) == done + DeleteSteps(base, desired, keys[..i]);
        continue;
      }
      var step := Step(None, Request("DELETE", Entry(k)), true, Some(w.current.value - {k}));
      failure := w.Write(d, step);
      ghost var so := done + DeleteSteps(base, desired, keys[..i]);
      RunExtend(d, p, so, step, w.unowned);
      assert so + [step] == done + DeleteSteps(base, desired, keys[..i + 1]);
      if failure.Some? {
        DeletesPrefix(base, desired, keys, i + 1);
        RunStuckPrefix(d, p, so + [step], done + all, w.unowned);
        return;
      }
      WroteCurrent(d, Run(d, p, so, w.unowned), step, w.unowned);
    }
    assert keys[..|keys|] == keys;
    return None;
  }

  lemma {:induction false} NoDeletes<R>(base: Rules<R>, desired: Rules<R>, keys: seq<Int64>)
    ensures keys[..0] == [] && DeleteSteps(base, desired, keys[..0]) == []
  {
  }

  predicate KeptNow<R(==)>(current: Rules<R>, desired: Rules<R>, k: Int64)
    requires k in current
    ensures KeptNow(current, desired, k) == Keeps(current, desired, k)
  {
    k in desired && desired[k] == current[k]
  }

  method Apply<S, R(==)>(d: RuleDevice<S, R>, update: Update<S, Content<R>>, family: Family<R>, desired: Rules<R>)
    returns (current: Owned<R>, failure: Option<Failure>, ghost accepted: seq<View<Owned<R>>>)
    requires update.Now() == Fresh(update.state)
    modifies update
    ensures Progress(update.Now(), current, accepted, failure) == Applied(d, old(update.state), family, desired)
  {
    hide Run, Plan;
    accepted := [];
    var view := update.Look(d);
    if view.None? {
      return None, Some(Stopped(None, Unreadable)), [];
    }
    var start := view.value.owned;
    if family.probed {
      if start == Some(desired) {
        return start, None, [];
      }
      var held := update.Probe(d, Sequences(start));
      if !held {
        return start, Some(Stale), [];
      }
    }
    var w := new Writer(update, view.value);
    failure := WriteAll(d, w, family, start, desired, w.Now(None));
    return w.current, failure, w.accepted;
  }

  /** Creates a missing list, deletes what changed, and adds what is missing. */
  method WriteAll<S, R(==)>(d: RuleDevice<S, R>, w: Writer<S, Content<R>, Owned<R>>, family: Family<R>,
        start: Owned<R>, desired: Rules<R>, ghost p: Progress<S, Content<R>, Owned<R>>)
    returns (failure: Option<Failure>)
    requires p == w.Now(None) && w.current == start
    modifies w, w.update
    ensures w.Now(failure) == Run(d, p, Plan(family, start, desired), w.unowned)
  {
    hide Run, Wrote, DeleteSteps, Remaining, Additions, Ascends;
    ghost var create, plan := CreateSteps(family, start, desired), Plan(family, start, desired);
    ghost var base := Base(family, start, desired);
    ghost var deletes := DeleteSteps(base, desired, Ascending(base.Keys));
    RunNothing(d, p, w.unowned);
    if start.None? {
      var initial := Initial(family, desired);
      var step := Step(None, Request("PATCH", List(initial)), false, Some(initial));
      failure := w.Write(d, step);
      RunExtend(d, p, [], step, w.unowned);
      assert [] + [step] == create;
      if failure.Some? {
        RunStuckPrefix(d, p, create, plan, w.unowned);
        return;
      }
      WroteCurrent(d, p, step, w.unowned);
    }
    failure := DeleteChanged(d, w, w.current.value, desired, p, create);
    if failure.Some? {
      RunStuckPrefix(d, p, create + deletes, plan, w.unowned);
      return;
    }
    var additions := CollectAdditions(w.current.value, desired);
    if additions == map[] {
      assert create + deletes == plan;
      return;
    }
    var step := Step(None, Request("PATCH", List(additions)), false, Some(desired));
    failure := w.Write(d, step);
    RunExtend(d, p, create + deletes, step, w.unowned);
    assert create + deletes + [step] == plan;
  }
}
