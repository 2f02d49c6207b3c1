/** When writing global authentication settings is declined, and which settings are left alone
    or written in any case. */
module GlobalChecks {
  import opened Prelude
  import opened Updating
  import opened CheckedWrites
  import opened GlobalAuth
  import opened GlobalApply
  import opened GlobalSafety

  predicate Dot1xInUse(ports: seq<Port>) { exists i :: 0 <= i < |ports| && ports[i].dot1x }

  predicate MacInUse(ports: seq<Port>) { exists i :: 0 <= i < |ports| && ports[i].mac }

  /** An action set by other means, with settings this resource could not write back. */
  predicate ForeignAction(failure: Value, timeout: Value) {
    || failure !in {Text(""), Text("restricted-vlan")}
    || (timeout.Text? && ' ' in timeout.s)
  }

  /** A VLAN is named that does not exist; zero names none. */
  predicate VlanMissing(desired: Config, vlans: set<Int64>) {
    exists id :: id in [desired.defaultVlan, desired.restrictedVlan, desired.criticalVlan, desired.voiceVlan]
                 && id != 0 && id !in vlans
  }

  /** The first reading, where it is complete. */
  function FirstValues<S>(d: AuthDevice<S>, state: S): (r: Option<Values>) {
    var view := AfterLook(d, Fresh<S, Content>(state)).1;
    if view.Some? && Full(view.value.owned) then Some(view.value.owned) else None
  }

  lemma {:induction false} UsedPorts(start: Values, desired: Config, ports: seq<Port>)
    requires Full(start)
    ensures Dot1xEnable in start && MacEnable in start
    ensures (forall i :: 0 <= i < |ports| ==>
               && !(start[Dot1xEnable] == Flag(true) && !desired.dot1x && ports[i].dot1x)
               && !(start[MacEnable] == Flag(true) && !desired.mac && ports[i].mac))
            <==> && !(start[Dot1xEnable] == Flag(true) && !desired.dot1x && Dot1xInUse(ports))
                 && !(start[MacEnable] == Flag(true) && !desired.mac && MacInUse(ports))
  {
    EveryKey(Dot1xEnable);
    EveryKey(MacEnable);
  }

  lemma {:induction false} AllVlans(desired: Config, vlans: set<Int64>)
    ensures VlanMissing(desired, vlans) <==>
            !(&& Exists(desired.defaultVlan, vlans) && Exists(desired.restrictedVlan, vlans)
              && Exists(desired.criticalVlan, vlans) && Exists(desired.voiceVlan, vlans))
  {
    var ids := [desired.defaultVlan, desired.restrictedVlan, desired.criticalVlan, desired.voiceVlan];
    assert ids[0] in ids && ids[1] in ids && ids[2] in ids && ids[3] in ids;
  }

  /** From a complete reading, writing is declined in exactly four cases: an interface still
      uses 802.1X or MAC authentication that is to be turned off, an action was set by other
      means, or a VLAN is missing; and nothing is then sent. */
  lemma {:induction false} DeclinedExactly<S>(d: AuthDevice<S>, state: S, desired: Config, ports: seq<Port>,
        vlans: set<Int64>)
    requires FirstValues(d, state).Some?
    ensures var start := FirstValues(d, state).value;
            var r := Applied(d, state, desired, ports, vlans);
            && Dot1xEnable in start && MacEnable in start && FailAction in start && TimeoutAction in start
            && (r.failure == Some(Declined) <==>
                  || (start[Dot1xEnable] == Flag(true) && !desired.dot1x && Dot1xInUse(ports))
                  || (start[MacEnable] == Flag(true) && !desired.mac && MacInUse(ports))
                  || ForeignAction(start[FailAction], start[TimeoutAction])
                  || VlanMissing(desired, vlans))
            && (r.failure == Some(Declined) ==>
                  r.session.sent == [] && r.session.state == AfterLook(d, Fresh<S, Content>(state)).0.state)
  {
    hide Plan, Run, VlanMissing, Exists, ForeignAction, Spaced, Dot1xInUse, MacInUse;
    var (s, view) := AfterLook(d, Fresh<S, Content>(state));
    var start := view.value.owned;
    EveryKey(FailAction);
    EveryKey(TimeoutAction);
    UsedPorts(start, desired, ports);
    AllVlans(desired, vlans);
    ForeignIs(start);
    NeverDeclines(d, Progress(s, start, [], None), Plan(start, ValuesOf(desired)).steps, view.value.unowned);
  }

  lemma {:induction false} ForeignIs(start: Values)
    requires Full(start)
    ensures FailAction in start && TimeoutAction in start
    ensures !ForeignAction(start[FailAction], start[TimeoutAction]) <==>
            && (start[FailAction] == Text("") || start[FailAction] == Text("restricted-vlan"))
            && (start[TimeoutAction].Text? ==> !Spaced(start[TimeoutAction].s))
  {
    EveryKey(FailAction);
    EveryKey(TimeoutAction);
  }

  /** Once writing has begun, other things may go wrong, but it is not declined. */
  lemma {:induction false} NeverDeclines<S, X, O, G>(d: Device<S, X, O, G>, p: Progress<S, X, O>,
        steps: seq<Step<X, O, G>>, unowned: seq<string>)
    requires p.failure != Some(Declined)
    ensures Run(d, p, steps, unowned).failure != Some(Declined)
  {
    if steps != [] { NeverDeclines(d, p, steps[..|steps| - 1], unowned); }
  }

  /** In particular, no request reaches a device while an interface depends on a feature that
      is to be turned off. */
  lemma {:induction false} DependentsProtected<S>(d: AuthDevice<S>, state: S, desired: Config, ports: seq<Port>,
        vlans: set<Int64>, i: nat)
    requires FirstValues(d, state).Some? && i < |ports|
    requires var start := FirstValues(d, state).value;
             || (Dot1xEnable in start && start[Dot1xEnable] == Flag(true) && ports[i].dot1x && !desired.dot1x)
             || (MacEnable in start && start[MacEnable] == Flag(true) && ports[i].mac && !desired.mac)
    ensures Applied(d, state, desired, ports, vlans).session.sent == []
  {
    hide Applied, FirstValues;
    DeclinedExactly(d, state, desired, ports, vlans);
    assert ports[i].dot1x ==> Dot1xInUse(ports);
    assert ports[i].mac ==> MacInUse(ports);
  }

  // ---- settings that do not change ----

  /** The setting has this value so far, and in every state on the way. */
  ghost predicate Steady(stage: Stage, k: Key, x: Value) {
    && k in stage.values && stage.values[k] == x
    && forall i :: 0 <= i < |stage.steps| ==> k in stage.steps[i].expected && stage.steps[i].expected[k] == x
  }

  lemma {:induction false} MoveSteady(stage: Stage, phase: Phase, wanted: Values, j: Key, k: Key)
    requires Full(stage.values) && Full(wanted) && k in wanted && Steady(stage, k, wanted[k])
    ensures Steady(Advance(stage, phase, wanted, j), k, wanted[k])
  {
    hide RequestFor;
    MoveAt(stage, phase, wanted, j, k);
    EveryKey(j);
  }

  lemma {:induction false} PassSteady(stage: Stage, phase: Phase, wanted: Values, keys: seq<Key>, k: Key)
    requires Full(stage.values) && Full(wanted) && k in wanted && Steady(stage, k, wanted[k])
    ensures Steady(Pass(stage, phase, wanted, keys), k, wanted[k])
  {
    hide Steady, Advance, Full;
    if keys != [] {
      var n := |keys| - 1;
      PassSteady(stage, phase, wanted, keys[..n], k);
      MoveSteady(Pass(stage, phase, wanted, keys[..n]), phase, wanted, keys[n], k);
    }
  }

  lemma {:induction false} PlanSteady(start: Values, wanted: Values, k: Key)
    requires Full(start) && Full(wanted) && k in start && k in wanted && start[k] == wanted[k]
    ensures Steady(Plan(start, wanted), k, wanted[k])
  {
    hide Pass, Full, ACTIONS, FLAGS, SETTINGS;
    var cleared := Pass(Stage(start, []), Clear, wanted, ACTIONS);
    var disabled := Pass(cleared, Disable, wanted, FLAGS);
    var settled := Pass(disabled, Settle, wanted, SETTINGS);
    PassSteady(Stage(start, []), Clear, wanted, ACTIONS, k);
    PassSteady(cleared, Disable, wanted, FLAGS, k);
    PassSteady(disabled, Settle, wanted, SETTINGS, k);
    PassSteady(settled, Act, wanted, ACTIONS, k);
  }

  lemma {:induction false} PlanMutates(start: Values, desired: Config)
    requires Full(start) && Valid(desired)
    ensures Mutating(Plan(start, ValuesOf(desired)).steps)
  {
    hide Plan, Valid, ValuesOf, Full, Safe;
    SafeMeets(start, Needs(false, false, false));
    PlanSafe(start, desired, Needs(false, false, false));
    forall i | 0 <= i < |Plan(start, ValuesOf(desired)).steps|
      ensures Mutates(Plan(start, ValuesOf(desired)).steps[i].request.verb)
    {
      assert StepSafe(Plan(start, ValuesOf(desired)).steps[i], Needs(false, false, false));
    }
  }

  /** Whatever the device answers, a setting that is to stay as it is has its value in every
      accepted state; an unchanged action in particular is never cleared. */
  lemma {:induction false} UnchangedThroughout<S>(d: AuthDevice<S>, state: S, desired: Config, ports: seq<Port>,
        vlans: set<Int64>, k: Key, i: nat)
    requires Valid(desired) && FirstValues(d, state).Some?
    requires k in FirstValues(d, state).value && FirstValues(d, state).value[k] == ValueOf(desired, k)
    requires i < |Applied(d, state, desired, ports, vlans).accepted|
    ensures var seen := Applied(d, state, desired, ports, vlans).accepted[i].owned;
            k in seen && seen[k] == ValueOf(desired, k)
  {
    hide Plan, Run, Startable, Full, Valid;
    var (s, view) := AfterLook(d, Fresh<S, Content>(state));
    var start := view.value.owned;
    FullValues(desired);
    EveryKey(k);
    PlanSteady(start, ValuesOf(desired), k);
    PlanMutates(start, desired);
    RunFollows(d, s.state, start, Plan(start, ValuesOf(desired)).steps, view.value.unowned);
  }

  lemma {:induction false} FullValues(desired: Config)
    ensures Full(ValuesOf(desired))
  {
  }

  // ---- actions ----

  /** The requests that set the desired actions. */
  function ActionRequests(desired: Config): (r: seq<Request<Content>>) {
    (if desired.failure != "" then [RequestFor(FailAction, Text(desired.failure))] else []) +
    if desired.timeout != "" then [RequestFor(TimeoutAction, Text(desired.timeout))] else []
  }

  function Requests(steps: seq<AuthStep>): (r: seq<Request<Content>>) {
    seq(|steps|, i requires 0 <= i < |steps| => steps[i].request)
  }

  lemma {:induction false} ActOne(stage: Stage, desired: Config, k: Key)
    requires Full(stage.values) && Full(ValuesOf(desired))
    ensures Requests(Advance(stage, Act, ValuesOf(desired), k).steps) ==
            Requests(stage.steps) +
            if ValueOf(desired, k) == Text("") then [] else [RequestFor(k, ValueOf(desired, k))]
  {
    hide RequestFor, ValueOf;
    EveryKey(k);
  }

  lemma {:induction false} ActRequests(stage: Stage, desired: Config)
    requires Full(stage.values) && Full(ValuesOf(desired))
    ensures Requests(Pass(stage, Act, ValuesOf(desired), ACTIONS).steps) ==
            Requests(stage.steps) + ActionRequests(desired)
  {
    hide RequestFor, Advance, ValuesOf, Full, Requests;
    var wanted := ValuesOf(desired);
    PassStep(stage, Act, wanted, ACTIONS, 0);
    PassStep(stage, Act, wanted, ACTIONS, 1);
    PassNone(stage, Act, wanted, ACTIONS);
    assert ACTIONS[..2] == ACTIONS;
    ActOne(stage, desired, FailAction);
    ActOne(Advance(stage, Act, wanted, FailAction), desired, TimeoutAction);
  }

  /** The plan ends by setting the desired actions. */
  lemma {:induction false} PlanActs(start: Values, desired: Config)
    requires Full(start) && Full(ValuesOf(desired))
    ensures var all, last := Requests(Plan(start, ValuesOf(desired)).steps), ActionRequests(desired);
            |all| >= |last| && all[|all| - |last|..] == last
  {
    hide Pass, Full, ValuesOf, Requests, ActionRequests, ACTIONS, FLAGS, SETTINGS;
    var wanted := ValuesOf(desired);
    var cleared := Pass(Stage(start, []), Clear, wanted, ACTIONS);
    var disabled := Pass(cleared, Disable, wanted, FLAGS);
    ActRequests(Pass(disabled, Settle, wanted, SETTINGS), desired);
  }

  lemma {:induction false} WholePlanSent<S>(d: AuthDevice<S>, state: S, desired: Config, ports: seq<Port>,
        vlans: set<Int64>)
    requires Valid(desired) && Applied(d, state, desired, ports, vlans).failure.None?
    ensures FirstValues(d, state).Some? && Full(ValuesOf(desired))
    ensures var sent, steps := Applied(d, state, desired, ports, vlans).session.sent,
                               Plan(FirstValues(d, state).value, ValuesOf(desired)).steps;
            SentSteps(sent, steps) && |sent| == |steps|
  {
    hide Run, Startable, Full, Valid, ValuesOf, Plan, SentSteps, Mutating;
    var (s, view) := AfterLook(d, Fresh<S, Content>(state));
    var start := view.value.owned;
    FullValues(desired);
    PlanMutates(start, desired);
    RunFollows(d, s.state, start, Plan(start, ValuesOf(desired)).steps, view.value.unowned);
  }

  /** Success means that the desired actions were set again after everything else, even where
      they had not changed. */
  lemma {:induction false} ActionsReapplied<S>(d: AuthDevice<S>, state: S, desired: Config, ports: seq<Port>,
        vlans: set<Int64>)
    requires Valid(desired) && Applied(d, state, desired, ports, vlans).failure.None?
    ensures var sent, last := Applied(d, state, desired, ports, vlans).session.sent, ActionRequests(desired);
            && |sent| >= |last|
            && forall i :: 0 <= i < |last| ==> sent[|sent| - |last| + i].request == last[i]
  {
    hide Applied, Valid, ValuesOf, Plan, ActionRequests, SentSteps, Requests;
    WholePlanSent(d, state, desired, ports, vlans);
    var start := FirstValues(d, state).value;
    PlanActs(start, desired);
    var steps := Plan(start, ValuesOf(desired)).steps;
    RequestsSize(steps);
    LastSent(Applied(d, state, desired, ports, vlans).session.sent, steps, ActionRequests(desired));
  }

  lemma {:induction false} RequestsSize(steps: seq<AuthStep>)
    ensures |Requests(steps)| == |steps|
  {
  }

  lemma {:induction false} LastSent(sent: seq<Sent<Content>>, steps: seq<AuthStep>, last: seq<Request<Content>>)
    requires SentSteps(sent, steps) && |sent| == |steps|
    requires |steps| >= |last| && Requests(steps)[|steps| - |last|..] == last
    ensures forall i :: 0 <= i < |last| ==> sent[|sent| - |last| + i].request == last[i]
  {
    forall i | 0 <= i < |last| ensures sent[|sent| - |last| + i].request == last[i] {
      assert Requests(steps)[|steps| - |last|..][i] == last[i];
    }
  }

  // ---- missing objects ----

  /** Exactly the deletions may find nothing to delete. */
  ghost predicate Tolerant(steps: seq<AuthStep>) {
    forall i :: 0 <= i < |steps| ==> (steps[i].allowMissing <==> steps[i].request.verb == "DELETE")
  }

  lemma {:induction false} PassTolerant(stage: Stage, phase: Phase, wanted: Values, keys: seq<Key>)
    requires Full(stage.values) && Full(wanted) && Tolerant(stage.steps)
    ensures Tolerant(Pass(stage, phase, wanted, keys).steps)
  {
    hide RequestFor, Decide;
    if keys != [] { PassTolerant(stage, phase, wanted, keys[..|keys| - 1]); }
  }

  lemma {:induction false} PlanTolerant(start: Values, wanted: Values)
    requires Full(start) && Full(wanted)
    ensures Tolerant(Plan(start, wanted).steps)
  {
    hide Pass, Full, Tolerant, ACTIONS, FLAGS, SETTINGS;
    var cleared := Pass(Stage(start, []), Clear, wanted, ACTIONS);
    var disabled := Pass(cleared, Disable, wanted, FLAGS);
    assert Tolerant([]) by { NothingTolerated(); }
    PassTolerant(Stage(start, []), Clear, wanted, ACTIONS);
    PassTolerant(cleared, Disable, wanted, FLAGS);
    PassTolerant(disabled, Settle, wanted, SETTINGS);
    PassTolerant(Pass(disabled, Settle, wanted, SETTINGS), Act, wanted, ACTIONS);
  }

  lemma {:induction false} NothingTolerated()
    ensures Tolerant([])
  {
  }

  /** Whatever the device answers, of the requests sent exactly the deletions may be answered by
      a missing object without failing. */
  lemma {:induction false} DeletionsTolerated<S>(d: AuthDevice<S>, state: S, desired: Config, ports: seq<Port>,
        vlans: set<Int64>, i: nat)
    requires Valid(desired) && FirstValues(d, state).Some?
    requires i < |Applied(d, state, desired, ports, vlans).session.sent|
    ensures var sent := Applied(d, state, desired, ports, vlans).session.sent[i];
            sent.allowMissing <==> sent.request.verb == "DELETE"
  {
    hide Plan, Run, Startable, Full, Valid, ValuesOf, Mutating;
    var (s, view) := AfterLook(d, Fresh<S, Content>(state));
    var start := view.value.owned;
    FullValues(desired);
    PlanTolerant(start, ValuesOf(desired));
    PlanMutates(start, desired);
    RunFollows(d, s.state, start, Plan(start, ValuesOf(desired)).steps, view.value.unowned);
  }
}
