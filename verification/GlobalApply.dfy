/** Writing global authentication settings in four passes, each write checked. */
module GlobalApply {
  import opened Prelude
  import opened Updating
  import opened CheckedWrites
  import opened GlobalAuth

  type AuthStep = Step<Content, Values, ()>

  type AuthDevice<!S> = Device<S, Content, Values, ()>

  /** Clear changed actions, turn off what is to be off, settle everything else, then set
      the desired actions again. */
  datatype Phase = Clear | Disable | Settle | Act

  const ACTIONS := [FailAction, TimeoutAction]
  const FLAGS := [MacDot1xDisable, MacDot1xOverride, Dot1xEnable, MacEnable]
  const SETTINGS := [
    DefaultVlan, RestrictedVlan, CriticalVlan, VoiceVlan, MaxSessions, Reauthentication, AuthOrder,
    Dot1xEnable, MacEnable, MacDot1xDisable, MacDot1xOverride]

  predicate Full(v: Values) { v.Keys == KEYS }

  /** The value a phase writes for a key, if it writes one. */
  function Decide(phase: Phase, v: Values, wanted: Values, k: Key): (r: Option<Value>)
    requires Full(v) && Full(wanted)
  {
    EveryKey(k);
    match phase
    case Clear => if v[k] == Text("") || v[k] == wanted[k] then None else Some(Text(""))
    case Disable => if v[k] == wanted[k] || wanted[k] != Flag(false) then None else Some(Flag(false))
    case Settle => if v[k] == wanted[k] then None else Some(wanted[k])
    case Act => if wanted[k] == Text("") then None else Some(wanted[k])
  }

  function StepFor(v: Values, k: Key, value: Value): (r: AuthStep) {
    var request := RequestFor(k, value);
    Step(None, request, request.verb == "DELETE", v[k := value])
  }

  /** The writes decided so far, and the values they lead to. */
  datatype Stage = Stage(values: Values, steps: seq<AuthStep>)

  function Advance(stage: Stage, phase: Phase, wanted: Values, k: Key): (r: Stage)
    requires Full(stage.values) && Full(wanted)
    ensures Full(r.values)
  {
    var value := Decide(phase, stage.values, wanted, k);
    if value.None? then stage
    else
      EveryKey(k);
      Stage(stage.values[k := value.value], stage.steps + [StepFor(stage.values, k, value.value)])
  }

  function Pass(stage: Stage, phase: Phase, wanted: Values, keys: seq<Key>): (r: Stage)
    requires Full(stage.values) && Full(wanted)
    ensures Full(r.values)
  {
    if keys == [] then stage
    else Advance(Pass(stage, phase, wanted, keys[..|keys| - 1]), phase, wanted, keys[|keys| - 1])
  }

  function Plan(start: Values, wanted: Values): (r: Stage)
    requires Full(start) && Full(wanted)
  {
    var cleared := Pass(Stage(start, []), Clear, wanted, ACTIONS);
    var disabled := Pass(cleared, Disable, wanted, FLAGS);
    var settled := Pass(disabled, Settle, wanted, SETTINGS);
    Pass(settled, Act, wanted, ACTIONS)
  }

  /** An interface that has authentication features enabled. */
  datatype Port = Port(dot1x: bool, mac: bool)

  predicate Spaced(s: string) { exists i :: 0 <= i < |s| && s[i] == ' ' }

  /** No interface still uses a feature that is to be turned off, the current actions are
      ones that can be written back, and the VLANs named exist. */
  predicate Startable(start: Values, desired: Config, ports: seq<Port>, vlans: set<Int64>)
    requires Full(start)
  {
    EveryKey(Dot1xEnable); EveryKey(MacEnable); EveryKey(FailAction); EveryKey(TimeoutAction);
    && (forall i :: 0 <= i < |ports| ==>
          && !(start[Dot1xEnable] == Flag(true) && !desired.dot1x && ports[i].dot1x)
          && !(start[MacEnable] == Flag(true) && !desired.mac && ports[i].mac))
    && (start[FailAction] == Text("") || start[FailAction] == Text("restricted-vlan"))
    && (start[TimeoutAction].Text? ==> !Spaced(start[TimeoutAction].s))
    && Exists(desired.defaultVlan, vlans) && Exists(desired.restrictedVlan, vlans)
    && Exists(desired.criticalVlan, vlans) && Exists(desired.voiceVlan, vlans)
  }

  predicate Exists(id: Int64, vlans: set<Int64>) { id != 0 ==> id in vlans }

  /** The whole callback, from a fresh session. */
  function Applied<S>(d: AuthDevice<S>, state: S, desired: Config, ports: seq<Port>,
        vlans: set<Int64>): (r: Progress<S, Content, Values>) {
    var (s, view) := AfterLook(d, Fresh(state));
    if view.None? || !Full(view.value.owned) then Progress(s, map[], [], Some(Stopped(None, Unreadable)))
    else
      var start := view.value.owned;
      if !Startable(start, desired, ports, vlans) then Progress(s, start, [], Some(Declined))
      else Run(d, Progress(s, start, [], None), Plan(start, ValuesOf(desired)).steps, view.value.unowned)
  }

  // ---- the writer ----

  lemma {:induction false} MoveExtends(stage: Stage, phase: Phase, wanted: Values, k: Key)
    requires Full(stage.values) && Full(wanted)
    ensures stage.steps <= Advance(stage, phase, wanted, k).steps
  {
    hide Decide, StepFor;
  }

  lemma {:induction false} PassExtends(stage: Stage, phase: Phase, wanted: Values, keys: seq<Key>, i: nat)
    requires Full(stage.values) && Full(wanted) && i <= |keys|
    ensures Pass(stage, phase, wanted, keys[..i]).steps <= Pass(stage, phase, wanted, keys).steps
    decreases |keys| - i
  {
    hide Advance;
    if i == |keys| {
      assert keys[..i] == keys;
    } else {
      PassStep(stage, phase, wanted, keys, i);
      MoveExtends(Pass(stage, phase, wanted, keys[..i]), phase, wanted, keys[i]);
      PassExtends(stage, phase, wanted, keys, i + 1);
    }
  }

  lemma {:induction false} PassStep(stage: Stage, phase: Phase, wanted: Values, keys: seq<Key>, i: nat)
    requires Full(stage.values) && Full(wanted) && i < |keys|
    ensures Pass(stage, phase, wanted, keys[..i + 1]) ==
            Advance(Pass(stage, phase, wanted, keys[..i]), phase, wanted, keys[i])
  {
    hide Advance;
    assert keys[..i + 1][..i] == keys[..i];
  }

  lemma {:induction false} PassNone(stage: Stage, phase: Phase, wanted: Values, keys: seq<Key>)
    requires Full(stage.values) && Full(wanted)
    ensures Pass(stage, phase, wanted, keys[..0]) == stage
    ensures stage.steps <= Pass(stage, phase, wanted, keys).steps
  {
    PassExtends(stage, phase, wanted, keys, 0);
  }

  /** One of the four loops. */
  method WritePass<S>(d: AuthDevice<S>, w: Writer<S, Content, Values>, phase: Phase, wanted: Values, keys: seq<Key>,
        ghost p: Progress<S, Content, Values>, ghost stage: Stage)
    returns (failure: Option<Failure>)
    requires Full(stage.values) && Full(wanted)
    requires w.Now(None) == Run(d, p, stage.steps, w.unowned) && w.current == stage.values
    modifies w, w.update
    ensures var after := Pass(stage, phase, wanted, keys);
            && w.Now(failure) == Run(d, p, after.steps, w.unowned)
            && (failure.None? ==> w.current == after.values)
  {
    hide Run, Wrote, Pass, Decide, Full, StepFor;
    PassNone(stage, phase, wanted, keys);
    for i := 0 to |keys|
      invariant Full(w.current)
      invariant w.Now(None) == Run(d, p, Pass(stage, phase, wanted, keys[..i]).steps, w.unowned)
      invariant w.current == Pass(stage, phase, wanted, keys[..i]).values
    {
      ghost var before := Pass(stage, phase, wanted, keys[..i]);
      PassStep(stage, phase, wanted, keys, i);
      var value := Decide(phase, w.current, wanted, keys[i]);
      if value.None? {
        continue;
      }
      var step := StepFor(w.current, keys[i], value.value);
      failure := w.Write(d, step);
      RunExtend(d, p, before.steps, step, w.unowned);
      if failure.Some? {
        PassExtends(stage, phase, wanted, keys, i + 1);
        RunStuckPrefix(d, p, before.steps + [step], Pass(stage, phase, wanted, keys).steps, w.unowned);
        return;
      }
      WroteCurrent(d, Run(d, p, before.steps, w.unowned), step, w.unowned);
      StepExpects(before.values, keys[i], value.value);
    }
    assert keys[..|keys|] == keys;
    return None;
  }

  lemma {:induction false} StepExpects(v: Values, k: Key, value: Value)
    ensures StepFor(v, k, value).expected == v[k := value]
  {
  }

  method Apply<S>(d: AuthDevice<S>, update: Update<S, Content>, desired: Config, ports: seq<Port>, vlans: set<Int64>)
    returns (current: Values, failure: Option<Failure>, ghost accepted: seq<View<Values>>)
    requires update.Now() == Fresh(update.state)
    modifies update
    ensures Progress(update.Now(), current, accepted, failure) == Applied(d, old(update.state), desired, ports, vlans)
  {
    hide Run, Wrote, Pass, Startable;
    accepted := [];
    var view := update.Look(d);
    if view.None? || !Full(view.value.owned) {
      return map[], Some(Stopped(None, Unreadable)), [];
    }
    var start := view.value.owned;
    if !Startable(start, desired, ports, vlans) {
      return start, Some(Declined), [];
    }
    var w := new Writer(update, view.value);
    failure := WriteAll(d, w, start, ValuesOf(desired), w.Now(None));
    return w.current, failure, w.accepted;
  }

  method WriteAll<S>(d: AuthDevice<S>, w: Writer<S, Content, Values>, start: Values, wanted: Values,
        ghost p: Progress<S, Content, Values>)
    returns (failure: Option<Failure>)
    requires p == w.Now(None) && w.current == start && Full(start) && Full(wanted)
    modifies w, w.update
    ensures w.Now(failure) == Run(d, p, Plan(start, wanted).steps, w.unowned)
  {
    hide Run, Wrote, Pass, Full;
    ghost var cleared := Pass(Stage(start, []), Clear, wanted, ACTIONS);
    ghost var disabled := Pass(cleared, Disable, wanted, FLAGS);
    ghost var settled := Pass(disabled, Settle, wanted, SETTINGS);
    ghost var plan := Plan(start, wanted);
    RunNothing(d, p, w.unowned);
    PassNone(cleared, Disable, wanted, FLAGS);
    PassNone(disabled, Settle, wanted, SETTINGS);
    PassNone(settled, Act, wanted, ACTIONS);
    failure := WritePass(d, w, Clear, wanted, ACTIONS, p, Stage(start, []));
    if failure.Some? {
      RunStuckPrefix(d, p, cleared.steps, plan.steps, w.unowned);
      return;
    }
    failure := WritePass(d, w, Disable, wanted, FLAGS, p, cleared);
    if failure.Some? {
      RunStuckPrefix(d, p, disabled.steps, plan.steps, w.unowned);
      return;
    }
    failure := WritePass(d, w, Settle, wanted, SETTINGS, p, disabled);
    if failure.Some? {
      RunStuckPrefix(d, p, settled.steps, plan.steps, w.unowned);
      return;
    }
    failure := WritePass(d, w, Act, wanted, ACTIONS, p, settled);
  }
}
