/** Reconciliation by checked writes: send one mutation, read native configuration back, and
    go on only if nothing unowned moved and the owned object is exactly what was intended. */
module CheckedWrites {
  import opened Prelude
  import opened Updating

  /** A mutation, what the REST collection must still hold before it (if that is checked),
      and what native configuration must show after it. */
  datatype Step<+X, +O, +G> = Step(guard: Option<G>, request: Request<X>, allowMissing: bool, expected: O)

  datatype Seen = Unreadable | Unrelated | Diverged | Matched

  datatype Failure = Declined | Stale | Stopped(write: Option<Error>, seen: Seen)

  /** `current` is the latest readback, `accepted` every readback that passed its check. */
  datatype Progress<S, X, O> = Progress(session: Session<S, X>, current: O, accepted: seq<View<O>>,
        failure: Option<Failure>)

  /** What a readback says about the write before it: none when the workflow may go on. */
  type Verdict<!O> = (Option<Error>, View<O>) -> Option<Failure>

  /** The usual order of the checks; `passes` says which objects are acceptable. */
  function Judge<O>(passes: O -> bool, unowned: seq<string>): (judge: Verdict<O>) {
    (e: Option<Error>, view: View<O>) =>
      if view.unowned != unowned then Some(Stopped(e, Unrelated))
      else if !passes(view.owned) then Some(Stopped(e, Diverged))
      else if e.Some? then Some(Stopped(e, Matched))
      else None
  }

  /** One mutation, its readback and the verdict; after a failure nothing more is sent. */
  function Checked<S, X, O, G>(d: Device<S, X, O, G>, p: Progress<S, X, O>, request: Request<X>, allowMissing: bool,
        judge: Verdict<O>): (r: Progress<S, X, O>)
  {
    if p.failure.Some? then p
    else
      var (s1, e) := AfterRest(d, p.session, request, allowMissing);
      var (s2, view) := AfterLook(d, s1);
      if view.None? then Progress(s2, p.current, p.accepted, Some(Stopped(e, Unreadable)))
      else
        var failure := judge(e, view.value);
        Progress(s2, view.value.owned, if failure.None? then p.accepted + [view.value] else p.accepted, failure)
  }

  function Equals<O(==)>(wanted: O): (r: O -> bool) { (o: O) => o == wanted }

  /** A step of a plan: its guard first, and exactly its expected object afterwards. */
  function Wrote<S, X, O(==), G>(d: Device<S, X, O, G>, p: Progress<S, X, O>, step: Step<X, O, G>,
        unowned: seq<string>): (r: Progress<S, X, O>)
  {
    if p.failure.Some? then p
    else
      var (s0, held) := if step.guard.Some? then AfterProbe(d, p.session, step.guard.value) else (p.session, true);
      if !held then Progress(s0, p.current, p.accepted, Some(Stale))
      else Checked(d, p.(session := s0), step.request, step.allowMissing, Judge(Equals(step.expected), unowned))
  }

  function Run<S, X, O(==), G>(d: Device<S, X, O, G>, p: Progress<S, X, O>, steps: seq<Step<X, O, G>>,
        unowned: seq<string>): (r: Progress<S, X, O>)
  {
    if steps == [] then p
    else Wrote(d, Run(d, p, steps[..|steps| - 1], unowned), steps[|steps| - 1], unowned)
  }

  /** The state a reconciliation's write closure captures. */
  class Writer<S, X, O(==)> {
    const update: Update<S, X>
    const unowned: seq<string>
    var current: O
    ghost var accepted: seq<View<O>>

    ghost function Now(failure: Option<Failure>): (p: Progress<S, X, O>)
      reads this, update
    {
      Progress(update.Now(), current, accepted, failure)
    }

    constructor (update: Update<S, X>, view: View<O>)
      ensures this.update == update && unowned == view.unowned
      ensures Now(None) == Progress(update.Now(), view.owned, [], None)
    {
      this.update, this.unowned, this.current, this.accepted := update, view.unowned, view.owned, [];
    }

    method Send<G>(d: Device<S, X, O, G>, request: Request<X>, allowMissing: bool, judge: Verdict<O>)
      returns (failure: Option<Failure>)
      modifies this, update
      ensures Now(failure) == Checked(d, old(Now(None)), request, allowMissing, judge)
    {
      var e := update.Rest(d, request, allowMissing);
      var view := update.Look(d);
      if view.None? {
        return Some(Stopped(e, Unreadable));
      }
      current := view.value.owned;
      failure := judge(e, view.value);
      if failure.None? {
        accepted := accepted + [view.value];
      }
    }

    method Write<G>(d: Device<S, X, O, G>, step: Step<X, O, G>) returns (failure: Option<Failure>)
      modifies this, update
      ensures Now(failure) == Wrote(d, old(Now(None)), step, unowned)
    {
      if step.guard.Some? {
        var held := update.Probe(d, step.guard.value);
        if !held {
          return Some(Stale);
        }
      }
      failure := Send(d, step.request, step.allowMissing, Judge(Equals(step.expected), unowned));
    }
  }

  lemma {:induction false} RunExtend<S, X, O, G>(d: Device<S, X, O, G>, p: Progress<S, X, O>,
        steps: seq<Step<X, O, G>>, step: Step<X, O, G>, unowned: seq<string>)
    ensures Run(d, p, steps + [step], unowned) == Wrote(d, Run(d, p, steps, unowned), step, unowned)
  {
    hide Wrote;
    assert (steps + [step])[..|steps|] == steps;
  }

  /** A failed plan stays where it failed. */
  lemma {:induction false} RunStuck<S, X, O, G>(d: Device<S, X, O, G>, p: Progress<S, X, O>, a: seq<Step<X, O, G>>,
        b: seq<Step<X, O, G>>, unowned: seq<string>)
    requires Run(d, p, a, unowned).failure.Some?
    ensures Run(d, p, a + b, unowned) == Run(d, p, a, unowned)
  {
    if b == [] {
      assert a + b == a;
    } else {
      var n := |b| - 1;
      RunStuck(d, p, a, b[..n], unowned);
      assert (a + b)[..|a| + n] == a + b[..n];
    }
  }

  lemma {:induction false} RunStuckPrefix<S, X, O, G>(d: Device<S, X, O, G>, p: Progress<S, X, O>,
        a: seq<Step<X, O, G>>, b: seq<Step<X, O, G>>, unowned: seq<string>)
    requires a <= b && Run(d, p, a, unowned).failure.Some?
    ensures Run(d, p, b, unowned) == Run(d, p, a, unowned)
  {
    hide Run;
    RunStuck(d, p, a, b[|a|..], unowned);
    assert a + b[|a|..] == b;
  }

  lemma {:induction false} WroteCurrent<S, X, O, G>(d: Device<S, X, O, G>, p: Progress<S, X, O>, step: Step<X, O, G>,
        unowned: seq<string>)
    requires Wrote(d, p, step, unowned).failure.None?
    ensures Wrote(d, p, step, unowned).current == step.expected
  {
  }

  lemma {:induction false} RunNothing<S, X, O, G>(d: Device<S, X, O, G>, p: Progress<S, X, O>, unowned: seq<string>)
    ensures Run<S, X, O, G>(d, p, [], unowned) == p
  {
  }

  lemma {:induction false} RunJoin<S, X, O, G>(d: Device<S, X, O, G>, p: Progress<S, X, O>, a: seq<Step<X, O, G>>,
        b: seq<Step<X, O, G>>, unowned: seq<string>)
    ensures Run(d, p, a + b, unowned) == Run(d, Run(d, p, a, unowned), b, unowned)
  {
    hide Wrote;
    if b == [] {
      assert a + b == a;
    } else {
      var n := |b| - 1;
      RunJoin(d, p, a, b[..n], unowned);
      assert (a + b)[..|a| + n] == a + b[..n];
    }
  }

  lemma {:induction false} RunOne<S, X, O, G>(d: Device<S, X, O, G>, p: Progress<S, X, O>, step: Step<X, O, G>,
        unowned: seq<string>)
    ensures Run(d, p, [step], unowned) == Wrote(d, p, step, unowned)
  {
    assert [step][..0] == [];
  }

  // ---- on an arbitrary device ----

  ghost predicate SentSteps<X, O, G>(sent: seq<Sent<X>>, steps: seq<Step<X, O, G>>) {
    |sent| <= |steps| && forall i :: 0 <= i < |sent| ==>
      sent[i].request == steps[i].request && sent[i].allowMissing == steps[i].allowMissing
  }

  /** The readbacks accepted are the plan's, in order, up to a first failure; the mutations
      sent are the plan's, at most one more than the readbacks accepted. */
  ghost predicate Follows<S, X, O, G>(p: Progress<S, X, O>, start: O, steps: seq<Step<X, O, G>>, unowned: seq<string>) {
    && |p.accepted| <= |steps|
    && (forall i :: 0 <= i < |p.accepted| ==> p.accepted[i] == View(steps[i].expected, unowned))
    && SentSteps(p.session.sent, steps)
    && |p.accepted| <= |p.session.sent| <= |p.accepted| + 1
    && (p.failure.None? ==>
          && |p.accepted| == |p.session.sent| == |steps|
          && p.session.active && p.session.err.None?
          && p.current == if steps == [] then start else steps[|steps| - 1].expected)
  }

  ghost predicate Mutating<X, O, G>(steps: seq<Step<X, O, G>>) {
    forall i :: 0 <= i < |steps| ==> Mutates(steps[i].request.verb)
  }

  lemma {:induction false} StepShape<S, X, O, G>(d: Device<S, X, O, G>, p: Progress<S, X, O>, step: Step<X, O, G>,
        unowned: seq<string>)
    requires p.failure.None? && p.session.active && p.session.err.None? && Mutates(step.request.verb)
    ensures var r := Wrote(d, p, step, unowned);
            && r.session.active
            && (r.session.sent == p.session.sent
                || exists reply :: r.session.sent == p.session.sent + [Sent(step.request, reply, step.allowMissing)])
            && (if r.failure.None? then
                  && |r.session.sent| == |p.session.sent| + 1 && r.session.err.None? && r.current == step.expected
                  && r.accepted == p.accepted + [View(step.expected, unowned)]
                else r.accepted == p.accepted)
  {
    var state := if step.guard.Some? then d.probe(p.session.state, step.guard.value).0 else p.session.state;
    var reply := d.send(state, step.request).1;
    var sent := Wrote(d, p, step, unowned).session.sent;
    assert sent == p.session.sent || sent == p.session.sent + [Sent(step.request, reply, step.allowMissing)];
  }

  lemma {:induction false} StepFollows<S, X, O, G>(d: Device<S, X, O, G>, p: Progress<S, X, O>, start: O,
        steps: seq<Step<X, O, G>>, step: Step<X, O, G>, unowned: seq<string>)
    requires Follows(p, start, steps, unowned) && Mutates(step.request.verb)
    ensures Follows(Wrote(d, p, step, unowned), start, steps + [step], unowned)
  {
    if p.failure.None? {
      hide Wrote;
      StepShape(d, p, step, unowned);
    }
  }

  function Begin<S, X, O>(state: S, start: O): (p: Progress<S, X, O>) { Progress(Fresh(state), start, [], None) }

  lemma {:induction false} RunFollows<S, X, O, G>(d: Device<S, X, O, G>, state: S, start: O,
        steps: seq<Step<X, O, G>>, unowned: seq<string>)
    requires Mutating(steps)
    ensures Follows(Run(d, Begin(state, start), steps, unowned), start, steps, unowned)
  {
    hide Follows, Wrote;
    if steps == [] {
      BeginFollows<S, X, O, G>(state, start, unowned);
    } else {
      var n := |steps| - 1;
      RunFollows(d, state, start, steps[..n], unowned);
      StepFollows(d, Run(d, Begin(state, start), steps[..n], unowned), start, steps[..n], steps[n], unowned);
      assert steps[..n] + [steps[n]] == steps;
    }
  }

  lemma {:induction false} BeginFollows<S, X, O, G>(state: S, start: O, unowned: seq<string>)
    ensures Follows<S, X, O, G>(Begin(state, start), start, [], unowned)
  {
  }

  // ---- writes decided on what was last read back ----

  /** The readback the i-th write was decided on. */
  function Preceding<O>(start: O, accepted: seq<View<O>>, i: nat): (o: O)
    requires i <= |accepted|
  {
    if i == 0 then start else accepted[i - 1].owned
  }

  ghost predicate Justified<X, O>(sent: seq<Sent<X>>, start: O, accepted: seq<View<O>>, may: (Request<X>, O) -> bool) {
    |sent| <= |accepted| + 1 && forall i :: 0 <= i < |sent| ==> may(sent[i].request, Preceding(start, accepted, i))
  }

  ghost predicate Effective<X, O>(sent: seq<Sent<X>>, start: O, accepted: seq<View<O>>, unowned: seq<string>,
        good: (Request<X>, O, O) -> bool) {
    && |accepted| <= |sent|
    && forall i :: 0 <= i < |accepted| ==>
         accepted[i].unowned == unowned && good(sent[i].request, Preceding(start, accepted, i), accepted[i].owned)
  }

  /** Every mutation sent is one that `may` be sent given the readback before it; every
      accepted readback is `good` for its mutation and that readback, with all else as it
      was; only the last mutation sent may lack an accepted readback. */
  ghost predicate Careful<S, X, O>(p: Progress<S, X, O>, start: O, unowned: seq<string>, may: (Request<X>, O) -> bool,
        good: (Request<X>, O, O) -> bool) {
    && p.session.active
    && Justified(p.session.sent, start, p.accepted, may)
    && Effective(p.session.sent, start, p.accepted, unowned, good)
    && (p.failure.None? ==>
          && |p.session.sent| == |p.accepted| && p.session.err.None?
          && p.current == Preceding(start, p.accepted, |p.accepted|))
  }

  lemma {:induction false} EffectiveAt<X, O>(sent: seq<Sent<X>>, start: O, accepted: seq<View<O>>,
        unowned: seq<string>, good: (Request<X>, O, O) -> bool, i: nat)
    requires Effective(sent, start, accepted, unowned, good) && i < |accepted|
    ensures i < |sent| && good(sent[i].request, Preceding(start, accepted, i), accepted[i].owned)
  {
  }

  lemma {:induction false} SentMore<X, O>(sent: seq<Sent<X>>, start: O, accepted: seq<View<O>>, unowned: seq<string>,
        may: (Request<X>, O) -> bool, good: (Request<X>, O, O) -> bool, m: Sent<X>)
    requires Justified(sent, start, accepted, may) && Effective(sent, start, accepted, unowned, good)
    requires |sent| == |accepted| && may(m.request, Preceding(start, accepted, |accepted|))
    ensures Justified(sent + [m], start, accepted, may) && Effective(sent + [m], start, accepted, unowned, good)
  {
    hide Preceding;
  }

  lemma {:induction false} AcceptedMore<X, O>(sent: seq<Sent<X>>, start: O, accepted: seq<View<O>>,
        unowned: seq<string>, may: (Request<X>, O) -> bool, good: (Request<X>, O, O) -> bool, view: View<O>)
    requires Justified(sent, start, accepted, may) && Effective(sent, start, accepted, unowned, good)
    requires |sent| == |accepted| + 1 && view.unowned == unowned
    requires good(sent[|accepted|].request, Preceding(start, accepted, |accepted|), view.owned)
    ensures Justified(sent, start, accepted + [view], may) && Effective(sent, start, accepted + [view], unowned, good)
  {
    hide Preceding;
    PrecedingKept(start, accepted, view);
  }

  lemma {:induction false} PrecedingKept<O>(start: O, accepted: seq<View<O>>, view: View<O>)
    ensures forall i :: 0 <= i <= |accepted| ==> Preceding(start, accepted + [view], i) == Preceding(start, accepted, i)
    ensures Preceding(start, accepted + [view], |accepted| + 1) == view.owned
  {
  }

  /** Only readbacks after an accepted write, with all else as it was, pass. */
  ghost predicate Sound<O(!new)>(judge: Verdict<O>, unowned: seq<string>) {
    forall e, view :: judge(e, view).None? ==> e.None? && view.unowned == unowned
  }

  lemma {:induction false} CheckedShape<S, X, O(!new), G>(d: Device<S, X, O, G>, p: Progress<S, X, O>,
        request: Request<X>, allowMissing: bool, judge: Verdict<O>, unowned: seq<string>)
    requires p.failure.None? && p.session.active && p.session.err.None? && Mutates(request.verb)
             && Sound(judge, unowned)
    ensures var r := Checked(d, p, request, allowMissing, judge);
            && r.session.active
            && (exists reply :: r.session.sent == p.session.sent + [Sent(request, reply, allowMissing)])
            && (if r.failure.None? then
                  && r.accepted == p.accepted + [View(r.current, unowned)] && r.session.err.None?
                  && judge(None, View(r.current, unowned)).None?
                else r.accepted == p.accepted)
  {
    var reply := d.send(p.session.state, request).1;
    assert Checked(d, p, request, allowMissing, judge).session.sent ==
      p.session.sent + [Sent(request, reply, allowMissing)];
  }

  lemma {:induction false} CheckedPasses<S, X, O, G>(d: Device<S, X, O, G>, p: Progress<S, X, O>, request: Request<X>,
        allowMissing: bool, judge: Verdict<O>)
    requires p.failure.None?
    ensures var r := Checked(d, p, request, allowMissing, judge);
            r.failure.None? ==> exists e, view :: judge(e, view).None? && view.owned == r.current
  {
    var (s1, e) := AfterRest(d, p.session, request, allowMissing);
    var (s2, view) := AfterLook(d, s1);
    assert view.Some? && judge(e, view.value).None? ==>
      view.value.owned == Checked(d, p, request, allowMissing, judge).current;
  }

  lemma {:induction false} CheckedCareful<S, X, O(!new), G>(d: Device<S, X, O, G>, p: Progress<S, X, O>, start: O,
        unowned: seq<string>, may: (Request<X>, O) -> bool, good: (Request<X>, O, O) -> bool, request: Request<X>,
        allowMissing: bool, judge: Verdict<O>)
    requires Careful(p, start, unowned, may, good) && Sound(judge, unowned)
    requires p.failure.None? ==>
               && Mutates(request.verb) && may(request, p.current)
               && forall e, view :: judge(e, view).None? ==> good(request, p.current, view.owned)
    ensures Careful(Checked(d, p, request, allowMissing, judge), start, unowned, may, good)
  {
    hide Preceding, Justified, Effective;
    if p.failure.None? {
      hide Checked;
      var r := Checked(d, p, request, allowMissing, judge);
      CheckedShape(d, p, request, allowMissing, judge, unowned);
      var reply :| r.session.sent == p.session.sent + [Sent(request, reply, allowMissing)];
      JustifiedSizes(p.session.sent, start, p.accepted, unowned, may, good);
      SentMore(p.session.sent, start, p.accepted, unowned, may, good, Sent(request, reply, allowMissing));
      if r.failure.None? {
        var view := View(r.current, unowned);
        AcceptedMore(r.session.sent, start, p.accepted, unowned, may, good, view);
        PrecedingKept(start, p.accepted, view);
      }
    }
  }

  lemma {:induction false} JustifiedSizes<X, O>(sent: seq<Sent<X>>, start: O, accepted: seq<View<O>>,
        unowned: seq<string>, may: (Request<X>, O) -> bool, good: (Request<X>, O, O) -> bool)
    requires Justified(sent, start, accepted, may) && Effective(sent, start, accepted, unowned, good)
    ensures |accepted| <= |sent| <= |accepted| + 1
  {
  }

  lemma {:induction false} BeginCareful<S, X, O>(session: Session<S, X>, start: O, unowned: seq<string>,
        may: (Request<X>, O) -> bool, good: (Request<X>, O, O) -> bool)
    requires session.active && session.err.None? && session.sent == []
    ensures Careful(Progress(session, start, [], None), start, unowned, may, good)
  {
  }

  // ---- on a device that does what it is asked ----

  /** The device performs the step from `state` and then shows what the step expects. */
  ghost predicate Performs<S, X, O, G>(d: Device<S, X, O, G>, state: S, next: S, step: Step<X, O, G>,
        unowned: seq<string>) {
    && (step.guard.Some? ==> d.probe(state, step.guard.value) == (state, true))
    && Mutates(step.request.verb)
    && d.send(state, step.request) == (next, Done)
    && d.show(next) == (next, Some(View(step.expected, unowned)))
  }

  lemma {:induction false} PerformedStep<S, X, O, G>(d: Device<S, X, O, G>, p: Progress<S, X, O>, next: S,
        step: Step<X, O, G>, unowned: seq<string>)
    requires p.failure.None? && p.session.active && p.session.err.None?
    requires Performs(d, p.session.state, next, step, unowned)
    ensures var r := Wrote(d, p, step, unowned);
            && r.failure.None? && r.session.active && r.session.err.None?
            && r.session.state == next && r.current == step.expected
            && r.session.sent == p.session.sent + [Sent(step.request, Done, step.allowMissing)]
  {
  }

  ghost predicate AllDone<X>(sent: seq<Sent<X>>) {
    forall i :: 0 <= i < |sent| ==> sent[i].reply == Done
  }

  /** No failure so far, nothing but accepted mutations, and the given state and readback. */
  ghost predicate OnTrack<S, X, O>(p: Progress<S, X, O>, state: S, owned: O) {
    && p.failure.None? && p.session.active && p.session.err.None?
    && p.session.state == state && p.current == owned && AllDone(p.session.sent)
  }

  lemma {:induction false} StaysOnTrack<S, X, O, G>(d: Device<S, X, O, G>, p: Progress<S, X, O>, state: S, owned: O,
        next: S, step: Step<X, O, G>, unowned: seq<string>)
    requires OnTrack(p, state, owned) && Performs(d, state, next, step, unowned)
    ensures OnTrack(Wrote(d, p, step, unowned), next, step.expected)
  {
    hide Wrote, Performs;
    PerformedStep(d, p, next, step, unowned);
  }
}
