/** Reconciling an ordered MAC access list: entries are re-identified before every write,
    changed ones deleted from the last to the first, and the missing ones patched in. */
module MacReconcile {
  import opened Prelude
  import opened MacCodec
  import opened MacEntries
  import opened Updating
  import opened CheckedWrites

  /** A PATCH of the ACL collection with one set's entries, or one entry's resource. */
  datatype Content = Set(name: string, entries: seq<RestEntry>) | EntryOf(name: string, id: Int64)

  type Owned = Option<seq<MacRule>>

  /** What the REST collection must still match: native rules, and the entries they had. */
  datatype Known = Known(native: Owned, entries: seq<MacEntry>)

  type MacStep = Step<Content, Owned, Known>

  /** A device whose ACL collection can be read as well. */
  datatype MacDevice<!S> = MacDevice(
    send: (S, Request<Content>) -> (S, Reply),
    show: S -> (S, Option<View<Owned>>),
    collection: S -> (S, Option<seq<AclSet>>))

  function Probing<S>(d: MacDevice<S>, name: string, s: S, known: Known): (r: (S, bool)) {
    var (next, reply) := d.collection(s);
    (next, Entries(reply, name, known.native) == Some(known.entries))
  }

  function Lift<S>(d: MacDevice<S>, name: string): (r: Device<S, Content, Owned, Known>) {
    Device(d.send, d.show, (s: S, known: Known) => Probing(d, name, s, known))
  }

  const TEMPORARY := MacEntry(1, MacRule("deny", ANY, ANY, None, false))

  function Encoded(entries: seq<MacEntry>): (r: seq<RestEntry>) {
    seq(|entries|, i requires 0 <= i < |entries| => Encode(entries[i]))
  }

  function Knowing(entries: seq<MacEntry>): (k: Known) { Known(Some(RulesOf(entries)), entries) }

  // ---- the plan ----

  function Wanted(target: seq<MacEntry>): (r: MacEntry -> bool) { (e: MacEntry) => e in target }

  /** The entries once positions from `i` on have been considered for deletion. */
  function Left(base: seq<MacEntry>, target: seq<MacEntry>, i: nat): (r: seq<MacEntry>)
    requires i <= |base|
    ensures base[..i] <= r
  {
    base[..i] + Filter(base[i..], Wanted(target))
  }

  function DeleteStep(name: string, base: seq<MacEntry>, target: seq<MacEntry>, i: nat): (r: MacStep)
    requires i < |base|
  {
    Step(Some(Knowing(Left(base, target, i + 1))), Request("DELETE", EntryOf(name, base[i].id)), true,
         Some(RulesOf(Left(base, target, i))))
  }

  function DeleteSteps(name: string, base: seq<MacEntry>, target: seq<MacEntry>, i: nat): (r: seq<MacStep>)
    requires i <= |base|
    decreases |base| - i
  {
    if i == |base| then []
    else
      var later := DeleteSteps(name, base, target, i + 1);
      if base[i] in target then later else later + [DeleteStep(name, base, target, i)]
  }

  function Additions(kept: seq<MacEntry>, target: seq<MacEntry>): (r: seq<MacEntry>) {
    Filter(target, (e: MacEntry) => e !in kept)
  }

  function AddSteps(name: string, kept: seq<MacEntry>, target: seq<MacEntry>): (r: seq<MacStep>) {
    var additions := Additions(kept, target);
    if additions == [] then []
    else [Step(Some(Knowing(kept)), Request("PATCH", Set(name, Encoded(additions))), false, Some(RulesOf(target)))]
  }

  function Initial(target: seq<MacEntry>): (r: seq<MacEntry>) { if target == [] then [TEMPORARY] else target }

  function CreateSteps(name: string, start: Owned, entries: seq<MacEntry>, target: seq<MacEntry>): (r: seq<MacStep>) {
    if start.Some? then []
    else [Step(Some(Known(None, entries)), Request("PATCH", Set(name, Encoded(Initial(target)))), false,
      Some(RulesOf(Initial(target))))]
  }

  function Base(start: Owned, entries: seq<MacEntry>, target: seq<MacEntry>): (r: seq<MacEntry>) {
    if start.Some? then entries else Initial(target)
  }

  function Plan(name: string, start: Owned, entries: seq<MacEntry>, target: seq<MacEntry>): (r: seq<MacStep>) {
    var base := Base(start, entries, target);
    CreateSteps(name, start, entries, target) + DeleteSteps(name, base, target, 0)
      + AddSteps(name, Left(base, target, 0), target)
  }

  function AfterCollection<S>(d: MacDevice<S>,
        s: Session<S, Content>): (r: (Session<S, Content>, Option<seq<AclSet>>)) {
    var (state, reply) := d.collection(s.state);
    (s.(state := state), reply)
  }

  /** The whole callback, from a fresh session. */
  function Applied<S>(d: MacDevice<S>, state: S, name: string, desired: seq<MacRule>): (r: Progress<S, Content, Owned>)
    requires |desired| <= LAST_ID
  {
    var (s0, view) := AfterLook(Lift(d, name), Fresh(state));
    if view.None? then Progress(s0, None, [], Some(Stopped(None, Unreadable)))
    else
      var start := view.value.owned;
      if start == Some(desired) then Progress(s0, start, [], None)
      else
        var (s1, reply) := AfterCollection(d, s0);
        var entries := Entries(reply, name, start);
        if entries.None? then Progress(s1, start, [], Some(Stale))
        else
          EntriesSound(reply, name, start);
          Run(Lift(d, name), Progress(s1, start, [], None),
            Plan(name, start, entries.value, Target(entries.value, desired)), view.value.unowned)
  }

  // ---- the writer ----

  lemma {:induction false} LeftStep(base: seq<MacEntry>, target: seq<MacEntry>, i: nat)
    requires i < |base|
    ensures var before := Left(base, target, i + 1);
            && i < |before| && before[i] == base[i]
            && Left(base, target, i) == if base[i] in target then before else RemoveAt(before, i)
  {
    hide Filter;
    FilterAppend([base[i]], base[i + 1..], Wanted(target));
    FilterOne(base[i], Wanted(target));
    assert [base[i]] + base[i + 1..] == base[i..];
    assert base[..i + 1] == base[..i] + [base[i]];
  }

  lemma {:induction false} LeftAll(base: seq<MacEntry>, target: seq<MacEntry>)
    ensures Left(base, target, |base|) == base
  {
    assert base[|base|..] == [];
  }

  lemma {:induction false} DeletesPrefix(name: string, base: seq<MacEntry>, target: seq<MacEntry>, i: nat)
    requires i <= |base|
    ensures DeleteSteps(name, base, target, i) <= DeleteSteps(name, base, target, 0)
    decreases i
  {
    hide DeleteStep;
    if i > 0 { DeletesPrefix(name, base, target, i - 1); }
  }

  lemma {:induction false} RulesOfRemoved(entries: seq<MacEntry>, i: nat)
    requires i < |entries|
    ensures RulesOf(RemoveAt(entries, i)) == RemoveAt(RulesOf(entries), i)
  {
  }

  /** Deletes what is not wanted, from the last entry to the first, each deletion checked. */
  method DeleteUnwanted<S>(d: MacDevice<S>, w: Writer<S, Content, Owned>, name: string, base: seq<MacEntry>,
        target: seq<MacEntry>, ghost p: Progress<S, Content, Owned>, ghost done: seq<MacStep>)
    returns (entries: seq<MacEntry>, failure: Option<Failure>)
    requires w.Now(None) == Run(Lift(d, name), p, done, w.unowned)
    modifies w, w.update
    ensures w.Now(failure) == Run(Lift(d, name), p, done + DeleteSteps(name, base, target, 0), w.unowned)
    ensures failure.None? ==> entries == Left(base, target, 0)
  {
    hide Run, Wrote, DeleteSteps, Left, Lift;
    entries := base;
    var i := |base|;
    LeftAll(base, target);
    NoDeletes(name, base, target);
    assert done + [] == done;
    while i > 0
      invariant 0 <= i <= |base| && entries == Left(base, target, i)
      invariant w.Now(None) == Run(Lift(d, name), p, done + DeleteSteps(name, base, target, i), w.unowned)
    {
      i := i - 1;
      LeftStep(base, target, i);
      DeletesStep(name, base, target, i);
      ghost var so := DeleteSteps(name, base, target, i + 1);
      var entry := entries[i];
      if entry in target {
        continue;
      }
      var expected := RemoveAt(entries, i);
      var step := Step(Some(Knowing(entries)), Request("DELETE", EntryOf(name, entry.id)), true,
        Some(RulesOf(expected)));
      failure := w.Write(Lift(d, name), step);
      RunExtend(Lift(d, name), p, done + so, step, w.unowned);
      assert done + so + [step] == done + (so + [step]);
      if failure.Some? {
        DeletesPrefix(name, base, target, i);
        RunStuckPrefix(Lift(d, name), p, done + (so + [step]), done + DeleteSteps(name, base, target, 0), w.unowned);
        return;
      }
      entries := expected;
    }
    return entries, None;
  }

  lemma {:induction false} NoDeletes(name: string, base: seq<MacEntry>, target: seq<MacEntry>)
    ensures DeleteSteps(name, base, target, |base|) == []
  {
  }

  lemma {:induction false} DeletesStep(name: string, base: seq<MacEntry>, target: seq<MacEntry>, i: nat)
    requires i < |base|
    ensures var later := DeleteSteps(name, base, target, i + 1);
            DeleteSteps(name, base, target, i) ==
            if base[i] in target then later else later + [DeleteStep(name, base, target, i)]
  {
    hide DeleteStep;
  }

  method CollectAdditions(kept: seq<MacEntry>, target: seq<MacEntry>) returns (additions: seq<MacEntry>)
    ensures additions == Additions(kept, target)
  {
    hide Filter;
    additions := [];
    ghost var missing := (e: MacEntry) => e !in kept;
    NoAdditions(kept);
    for i := 0 to |target|
      invariant additions == Additions(kept, target[..i])
    {
      FilterAppend(target[..i], [target[i]], missing);
      FilterOne(target[i], missing);
      assert target[..i + 1] == target[..i] + [target[i]];
      if target[i] !in kept {
        additions := additions + [target[i]];
      }
    }
    assert target[..|target|] == target;
  }

  lemma {:induction false} NoAdditions(kept: seq<MacEntry>)
    ensures Additions(kept, []) == []
  {
  }

  method Apply<S>(d: MacDevice<S>, update: Update<S, Content>, name: string, desired: seq<MacRule>)
    returns (current: Owned, failure: Option<Failure>, ghost accepted: seq<View<Owned>>)
    requires update.Now() == Fresh(update.state) && |desired| <= LAST_ID
    modifies update
    ensures Progress(update.Now(), current, accepted, failure) == Applied(d, old(update.state), name, desired)
  {
    hide Run, Wrote, DeleteSteps, Left, Additions, Target, Entries;
    accepted := [];
    var view := update.Look(Lift(d, name));
    if view.None? {
      return None, Some(Stopped(None, Unreadable)), [];
    }
    var start := view.value.owned;
    if start == Some(desired) {
      return start, None, [];
    }
    var (next, reply) := d.collection(update.state);
    update.state := next;
    var matched := ReadEntries(reply, name, start);
    if matched.None? {
      return start, Some(Stale), [];
    }
    EntriesSound(reply, name, start);
    var target := Targets(matched.value, desired);
    var w := new Writer(update, view.value);
    current, failure, accepted := WriteAll(d, w, name, start, matched.value, target, w.Now(None));
  }

  method WriteAll<S>(d: MacDevice<S>, w: Writer<S, Content, Owned>, name: string, start: Owned, known: seq<MacEntry>,
        target: seq<MacEntry>, ghost p: Progress<S, Content, Owned>)
    returns (current: Owned, failure: Option<Failure>, ghost accepted: seq<View<Owned>>)
    requires p == w.Now(None) && p.failure.None?
    modifies w, w.update
    ensures Progress(w.update.Now(), current, accepted, failure) ==
            Run(Lift(d, name), p, Plan(name, start, known, target), w.unowned)
  {
    hide Run, Wrote, DeleteSteps, Left, Additions, Lift;
    var entries := known;
    ghost var create, plan := CreateSteps(name, start, known, target), Plan(name, start, known, target);
    ghost var base := Base(start, known, target);
    ghost var deletes := DeleteSteps(name, base, target, 0);
    RunNothing(Lift(d, name), p, w.unowned);
    if start.None? {
      var initial := Initial(target);
      var step := Step(Some(Known(None, entries)), Request("PATCH", Set(name, Encoded(initial))), false,
        Some(RulesOf(initial)));
      failure := w.Write(Lift(d, name), step);
      RunExtend(Lift(d, name), p, [], step, w.unowned);
      assert [] + [step] == create;
      if failure.Some? {
        RunStuckPrefix(Lift(d, name), p, create, plan, w.unowned);
        return w.current, failure, w.accepted;
      }
      entries := initial;
    }
    entries, failure := DeleteUnwanted(d, w, name, entries, target, p, create);
    if failure.Some? {
      RunStuckPrefix(Lift(d, name), p, create + deletes, plan, w.unowned);
      return w.current, failure, w.accepted;
    }
    var additions := CollectAdditions(entries, target);
    if additions == [] {
      assert create + deletes == plan;
      return w.current, None, w.accepted;
    }
    var step := Step(Some(Knowing(entries)), Request("PATCH", Set(name, Encoded(additions))), false,
      Some(RulesOf(target)));
    failure := w.Write(Lift(d, name), step);
    RunExtend(Lift(d, name), p, create + deletes, step, w.unowned);
    assert create + deletes + [step] == plan;
    return w.current, failure, w.accepted;
  }
}
