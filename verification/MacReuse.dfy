/** What reusing entry IDs spares: which rules of a MAC list are left alone throughout, and
    which deletions are sent. */
module MacReuse {
  import opened Prelude
  import opened MacCodec
  import opened MacEntries
  import opened Updating
  import opened CheckedWrites
  import opened MacReconcile
  import opened MacSafety
  import opened MacConvergence

  /** The entry keeps its ID and its rule: with room, where the rule at its position does not
      change; without, where its ID happens to be the number of its rule. */
  predicate Stays(entries: seq<MacEntry>, desired: seq<MacRule>, i: nat)
    requires i < |entries|
  {
    var e := entries[i];
    if entries[|entries| - 1].id + |desired| - |entries| <= LAST_ID then i < |desired| && desired[i] == e.rule
    else 1 <= e.id <= |desired| && desired[e.id - 1] == e.rule
  }

  lemma {:induction false} StaysInTarget(entries: seq<MacEntry>, desired: seq<MacRule>, i: nat)
    requires Numbered(entries) && |desired| <= LAST_ID && i < |entries|
    ensures entries[i] in Target(entries, desired) <==> Stays(entries, desired, i)
  {
    hide Target;
    var e, target := entries[i], Target(entries, desired);
    assert |RulesOf(target)| == |desired|;
    forall j | 0 <= j < |target| ensures target[j].rule == desired[j] { assert RulesOf(target)[j] == desired[j]; }
    if Stays(entries, desired, i) {
      assert target[if Room(entries, |desired|) then i else e.id - 1] == e;
    }
  }

  /** The rules of the entries from position `i` on that stay. */
  function SurvivorsFrom(entries: seq<MacEntry>, desired: seq<MacRule>, i: nat): (r: seq<MacRule>)
    requires i <= |entries|
    decreases |entries| - i
  {
    if i == |entries| then []
    else (if Stays(entries, desired, i) then [entries[i].rule] else []) + SurvivorsFrom(entries, desired, i + 1)
  }

  function Survivors(entries: seq<MacEntry>, desired: seq<MacRule>): (r: seq<MacRule>) {
    SurvivorsFrom(entries, desired, 0)
  }

  lemma {:induction false} SurvivorsLeft(entries: seq<MacEntry>, desired: seq<MacRule>, i: nat)
    requires Numbered(entries) && |desired| <= LAST_ID && i <= |entries|
    ensures RulesOf(Filter(entries[i..], Wanted(Target(entries, desired)))) == SurvivorsFrom(entries, desired, i)
    decreases |entries| - i
  {
    hide Target, Stays, Numbered;
    if i < |entries| {
      SurvivorsLeft(entries, desired, i + 1);
      StaysInTarget(entries, desired, i);
      assert entries[i..][1..] == entries[i + 1..];
    }
  }

  /** The entries that stay, as the plan sees them. */
  lemma {:induction false} SurvivorsKept(entries: seq<MacEntry>, desired: seq<MacRule>)
    requires Numbered(entries) && |desired| <= LAST_ID
    ensures RulesOf(Left(entries, Target(entries, desired), 0)) == Survivors(entries, desired)
  {
    hide Target, Filter, Numbered;
    SurvivorsLeft(entries, desired, 0);
    assert entries[..0] + Filter(entries[0..], Wanted(Target(entries, desired))) ==
           Filter(entries[0..], Wanted(Target(entries, desired)));
  }

  ghost function Position<T>(s: seq<T>, x: T): (i: nat)
    requires x in s
    ensures i < |s| && s[i] == x
  {
    var i: nat :| i < |s| && s[i] == x; i
  }

  /** Numbered entries that another numbered list has too are there in the same order. */
  lemma {:induction false} NumberedWithin(a: seq<MacEntry>, b: seq<MacEntry>)
    requires Numbered(a) && Numbered(b) && forall e :: e in a ==> e in b
    ensures Subsequence(RulesOf(a), RulesOf(b))
  {
    var f: seq<nat> := seq(|a|, i requires 0 <= i < |a| => assert a[i] in a; Position(b, a[i]));
    forall i, j | 0 <= i < j < |f| ensures f[i] < f[j] {
      assert a[i].id < a[j].id && b[f[i]] == a[i] && b[f[j]] == a[j];
    }
    assert Embeds(f, RulesOf(a), RulesOf(b));
  }

  lemma {:induction false} SurvivorsWanted(entries: seq<MacEntry>, desired: seq<MacRule>)
    requires Numbered(entries) && |desired| <= LAST_ID
    ensures Subsequence(Survivors(entries, desired), desired)
  {
    hide Target, Survivors, Subsequence, Numbered;
    var target := Target(entries, desired);
    SurvivorsKept(entries, desired);
    assert entries[0..] == entries;
    assert Left(entries, target, 0) == Filter(entries, Wanted(target));
    FilterNumbered(entries, Wanted(target));
    NumberedWithin(Left(entries, target, 0), target);
  }

  // ---- every device ----

  /** The list as first read and the REST entries matched to it, where both could be. */
  function FirstMatch<S>(d: MacDevice<S>, state: S, name: string): (r: Option<seq<MacEntry>>)
  {
    var (s0, view) := AfterLook(Lift(d, name), Fresh<S, Content>(state));
    if view.None? || view.value.owned.None? then None
    else Entries(AfterCollection(d, s0).1, name, view.value.owned)
  }

  lemma {:induction false} FirstMatchSound<S>(d: MacDevice<S>, state: S, name: string)
    requires FirstMatch(d, state, name).Some?
    ensures Numbered(FirstMatch(d, state, name).value)
  {
    hide Entries, Lift, Numbered;
    var (s0, view) := AfterLook(Lift(d, name), Fresh<S, Content>(state));
    EntriesSound(AfterCollection(d, s0).1, name, view.value.owned);
  }

  lemma {:induction false} KeptAre<S>(d: MacDevice<S>, state: S, name: string, desired: seq<MacRule>)
    requires |desired| <= LAST_ID && FirstMatch(d, state, name).Some?
    ensures KeptThroughout(d, state, name, desired) == Survivors(FirstMatch(d, state, name).value, desired)
  {
    hide Entries, Lift, Target, Left, Survivors, Numbered;
    FirstMatchSound(d, state, name);
    SurvivorsKept(FirstMatch(d, state, name).value, desired);
  }

  /** Whatever the device answers, every accepted list has the rules of all entries that
      stay, in order. */
  lemma {:induction false} SurvivorsUndisturbed<S>(d: MacDevice<S>, state: S, name: string, desired: seq<MacRule>,
        i: nat)
    requires |desired| <= LAST_ID && FirstMatch(d, state, name).Some?
    requires i < |Applied(d, state, name, desired).accepted|
    ensures var list := Applied(d, state, name, desired).accepted[i].owned;
            list.Some? && Subsequence(Survivors(FirstMatch(d, state, name).value, desired), list.value)
  {
    hide Applied, KeptThroughout, FirstMatch, Survivors, Subsequence, Lift, Numbered;
    ViewSeen(d, state, name);
    ArbitraryDevice(d, state, name, desired);
    KeptAre(d, state, name, desired);
    FirstMatchSound(d, state, name);
    SurvivorsWanted(FirstMatch(d, state, name).value, desired);
  }

  lemma {:induction false} ViewSeen<S>(d: MacDevice<S>, state: S, name: string)
    requires FirstMatch(d, state, name).Some?
    ensures AfterLook(Lift(d, name), Fresh<S, Content>(state)).1.Some?
  {
    hide Entries, Lift;
  }

  /** The request does not delete an entry that stays. */
  ghost predicate Spares(request: Request<Content>, name: string, entries: seq<MacEntry>, desired: seq<MacRule>) {
    request.content.EntryOf? ==>
      exists i: nat :: i < |entries| && !Stays(entries, desired, i)
                       && request == Request("DELETE", EntryOf(name, entries[i].id))
  }

  ghost predicate AllSpare(steps: seq<MacStep>, name: string, entries: seq<MacEntry>, desired: seq<MacRule>) {
    forall k :: 0 <= k < |steps| ==> Spares(steps[k].request, name, entries, desired)
  }

  lemma {:induction false} MovedSpares(name: string, entries: seq<MacEntry>, desired: seq<MacRule>, i: nat)
    requires i < |entries|
    ensures !Stays(entries, desired, i) ==>
              Spares(Request("DELETE", EntryOf(name, entries[i].id)), name, entries, desired)
  {
    hide Stays;
  }

  lemma {:induction false} DeletesSpare(name: string, entries: seq<MacEntry>, desired: seq<MacRule>, i: nat)
    requires Numbered(entries) && |desired| <= LAST_ID && i <= |entries|
    ensures var steps := DeleteSteps(name, entries, Target(entries, desired), i);
            AllSpare(steps, name, entries, desired)
    decreases |entries| - i
  {
    hide Target, Stays, Left, Numbered, Spares;
    if i < |entries| {
      DeletesSpare(name, entries, desired, i + 1);
      StaysInTarget(entries, desired, i);
      MovedSpares(name, entries, desired, i);
      DeletesStep(name, entries, Target(entries, desired), i);
    }
  }

  /** Whatever the device answers, the only entries deleted are ones that do not stay: while
      there is room, those at positions whose rule changes or goes. */
  lemma {:induction false} OnlyChangedDeleted<S>(d: MacDevice<S>, state: S, name: string, desired: seq<MacRule>, k: nat)
    requires |desired| <= LAST_ID && FirstMatch(d, state, name).Some?
    requires k < |Applied(d, state, name, desired).session.sent|
    ensures Spares(Applied(d, state, name, desired).session.sent[k].request, name, FirstMatch(d, state, name).value,
            desired)
  {
    hide Entries, Lift, Target, Plan, Run, Numbered, Spares;
    var (s0, view) := AfterLook(Lift(d, name), Fresh<S, Content>(state));
    var (s1, _) := AfterCollection(d, s0);
    var start, entries := view.value.owned, FirstMatch(d, state, name).value;
    FirstMatchSound(d, state, name);
    if start != Some(desired) {
      var target := Target(entries, desired);
      PlanSpares(name, start, entries, desired);
      EntriesSound(AfterCollection(d, s0).1, name, start);
      PlanSafe(name, start, entries, target);
      RunFollows(Lift(d, name), s1.state, start, Plan(name, start, entries, target), view.value.unowned);
    }
  }

  lemma {:induction false} PatchSpares(request: Request<Content>, name: string, entries: seq<MacEntry>,
        desired: seq<MacRule>)
    requires request.content.Set?
    ensures Spares(request, name, entries, desired)
  {
  }

  lemma {:induction false} PlanSpares(name: string, start: Owned, entries: seq<MacEntry>, desired: seq<MacRule>)
    requires Numbered(entries) && |desired| <= LAST_ID && start.Some?
    ensures var plan := Plan(name, start, entries, Target(entries, desired));
            AllSpare(plan, name, entries, desired)
  {
    hide Left, Target, Stays, Numbered, Spares;
    DeletesSpare(name, entries, desired, 0);
    var target := Target(entries, desired);
    var deletes, adds := DeleteSteps(name, entries, target, 0), AddSteps(name, Left(entries, target, 0), target);
    forall k | 0 <= k < |adds| ensures Spares(adds[k].request, name, entries, desired) {
      PatchSpares(adds[k].request, name, entries, desired);
    }
    var plan := Plan(name, start, entries, target);
    assert plan == deletes + adds;
    assert AllSpare(deletes, name, entries, desired);
  }

  // ---- how many are deleted ----

  /** The positions whose entry does not stay. */
  function Moved(entries: seq<MacEntry>, desired: seq<MacRule>, n: nat): (r: set<nat>)
    requires n <= |entries|
  {
    set i: nat | n <= i < |entries| && !Stays(entries, desired, i)
  }

  function Deletions(steps: seq<MacStep>): (n: nat) {
    if steps == [] then 0
    else Deletions(steps[..|steps| - 1]) + if steps[|steps| - 1].request.verb == "DELETE" then 1 else 0
  }

  function DeletionsSent(sent: seq<Sent<Content>>): (n: nat) {
    if sent == [] then 0
    else DeletionsSent(sent[..|sent| - 1]) + if sent[|sent| - 1].request.verb == "DELETE" then 1 else 0
  }

  lemma {:induction false} SameDeletions(sent: seq<Sent<Content>>, steps: seq<MacStep>)
    requires SentSteps(sent, steps) && |sent| == |steps|
    ensures DeletionsSent(sent) == Deletions(steps)
  {
    if sent != [] { SameDeletions(sent[..|sent| - 1], steps[..|steps| - 1]); }
  }

  lemma {:induction false} CountDeletes(name: string, entries: seq<MacEntry>, desired: seq<MacRule>, i: nat)
    requires Numbered(entries) && |desired| <= LAST_ID && i <= |entries|
    ensures Deletions(DeleteSteps(name, entries, Target(entries, desired), i)) == |Moved(entries, desired, i)|
    decreases |entries| - i
  {
    hide Target, Stays, Left, Numbered;
    if i < |entries| {
      CountDeletes(name, entries, desired, i + 1);
      StaysInTarget(entries, desired, i);
      MovedStep(entries, desired, i);
      var later := DeleteSteps(name, entries, Target(entries, desired), i + 1);
      if !Stays(entries, desired, i) {
        var step := DeleteStep(name, entries, Target(entries, desired), i);
        assert (later + [step])[..|later|] == later;
      }
    } else {
      assert Moved(entries, desired, i) == {};
    }
  }

  lemma {:induction false} MovedStep(entries: seq<MacEntry>, desired: seq<MacRule>, i: nat)
    requires i < |entries|
    ensures |Moved(entries, desired, i)| ==
            |Moved(entries, desired, i + 1)| + if Stays(entries, desired, i) then 0 else 1
  {
    hide Stays;
    var later := Moved(entries, desired, i + 1);
    assert Moved(entries, desired, i) == if Stays(entries, desired, i) then later else later + {i};
  }

  lemma {:induction false} PlanDeletions(name: string, start: Owned, entries: seq<MacEntry>, desired: seq<MacRule>)
    requires Numbered(entries) && |desired| <= LAST_ID && start.Some?
    ensures Deletions(Plan(name, start, entries, Target(entries, desired))) == |Moved(entries, desired, 0)|
  {
    hide DeleteSteps, Left, Additions, Target, Moved, Numbered;
    CountDeletes(name, entries, desired, 0);
    var deletes, adds := DeleteSteps(name, entries, Target(entries, desired), 0),
      AddSteps(name, Left(entries, Target(entries, desired), 0), Target(entries, desired));
    assert [] + deletes == deletes;
    if adds != [] { assert (deletes + adds)[..|deletes|] == deletes; } else { assert deletes + adds == deletes; }
  }

  /** On the merging device exactly the entries that do not stay are deleted, one by one; and
      while there is room the list ends under the IDs it had, extended by the next ones. */
  lemma {:induction false} DeletesWhatMoves(free: Freedom, name: string, s: MergeState, desired: seq<MacRule>)
    requires ValidRules(desired) && |desired| <= LAST_ID
    requires ListsAll(free) && Matching(s.foreign, name) == [] && s.rows.Some? && Agrees(s.rows.value)
    requires Native(s.rows) != Some(desired)
    ensures var r := Applied(MergeDevice(free, name), s, name, desired);
            && DeletionsSent(r.session.sent) == |Moved(Standing(s), desired, 0)|
            && r.session.state.rows.Some? && Reused(Standing(s), Listing(r.session.state.rows.value))
  {
    hide Listing, Lift, Agrees, Run, Matching, Numbered, ValidRules, Target, Plan, Native, Applied, Reused;
    Converges(free, name, s, desired);
    var target := Target(Standing(s), desired);
    AppliedRuns(free, name, s, desired);
    NativeRules(s);
    PlanDeletions(name, Native(s.rows), Standing(s), desired);
    PlanSafe(name, Native(s.rows), Standing(s), target);
    RunFollows(Lift(MergeDevice(free, name), name), s, Native(s.rows),
      Plan(name, Native(s.rows), Standing(s), target), s.others);
    SameDeletions(Applied(MergeDevice(free, name), s, name, desired).session.sent,
      Plan(name, Native(s.rows), Standing(s), target));
    TargetReuses(Standing(s), desired);
  }

  lemma {:induction false} TargetReuses(entries: seq<MacEntry>, desired: seq<MacRule>)
    requires Numbered(entries) && |desired| <= LAST_ID
    ensures Reused(entries, Target(entries, desired))
  {
  }
}
