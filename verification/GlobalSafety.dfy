/** What writing global authentication guarantees: on an arbitrary device, safety of every
    accepted state; on a device that refuses unsafe states, completion. */
module GlobalSafety {
  import opened Prelude
  import opened Updating
  import opened CheckedWrites
  import opened GlobalAuth
  import opened GlobalApply

  /** Which prerequisites are asked for: a VLAN for enabled features, and one for each
      action that moves hosts. */
  datatype Needs = Needs(features: bool, failure: bool, timeout: bool)

  /** The values meet the prerequisites asked for. */
  predicate Safe(v: Values, need: Needs)
    requires Full(v)
  {
    EveryKey(Dot1xEnable); EveryKey(MacEnable); EveryKey(DefaultVlan); EveryKey(FailAction);
    EveryKey(RestrictedVlan); EveryKey(TimeoutAction); EveryKey(CriticalVlan);
    && (need.features && (v[Dot1xEnable] == Flag(true) || v[MacEnable] == Flag(true)) ==> v[DefaultVlan] != Number(0))
    && (need.failure && v[FailAction] != Text("") ==> v[RestrictedVlan] != Number(0))
    && (need.timeout && v[TimeoutAction] == Text("critical-vlan") ==> v[CriticalVlan] != Number(0))
  }

  /** The prerequisites the values meet. */
  function Met(v: Values): (met: Needs)
    requires Full(v)
    ensures Safe(v, met)
  {
    Needs(Safe(v, Needs(true, false, false)), Safe(v, Needs(false, true, false)), Safe(v, Needs(false, false, true)))
  }

  lemma {:induction false} SafeIsGrounded(p: Config)
    ensures Safe(ValuesOf(p), Needs(true, true, true)) <==> Grounded(p)
  {
    hide ValuesOf;
    forall k ensures k in ValuesOf(p) { EveryKey(k); }
  }

  /** Every write is a change of one setting that leads to a safe state. */
  ghost predicate StepSafe(step: AuthStep, need: Needs) {
    && Mutates(step.request.verb) && step.guard.None?
    && Full(step.expected) && Safe(step.expected, need)
  }

  ghost predicate StageSafe(stage: Stage, start: Values, need: Needs) {
    && Full(stage.values) && Safe(stage.values, need)
    && (forall i :: 0 <= i < |stage.steps| ==> StepSafe(stage.steps[i], need))
    && stage.values == (if stage.steps == [] then start else stage.steps[|stage.steps| - 1].expected)
  }

  // ---- one move ----

  lemma {:induction false} UpdateAt(v: Values, k: Key, x: Value, j: Key)
    requires Full(v)
    ensures j in v && Full(v[k := x]) && v[k := x][j] == if j == k then x else v[j]
  {
    EveryKey(k);
    EveryKey(j);
  }

  lemma {:induction false} AdvanceValues(stage: Stage, phase: Phase, wanted: Values, k: Key)
    requires Full(stage.values) && Full(wanted)
    ensures var value := Decide(phase, stage.values, wanted, k);
            Advance(stage, phase, wanted, k).values ==
            if value.Some? then stage.values[k := value.value] else stage.values
  {
    hide Decide, StepFor, Full;
  }

  /** A move changes at most its own key. */
  lemma {:induction false} MoveAt(stage: Stage, phase: Phase, wanted: Values, k: Key, j: Key)
    requires Full(stage.values) && Full(wanted)
    ensures j in stage.values && j in wanted && j in Advance(stage, phase, wanted, k).values
    ensures Advance(stage, phase, wanted, k).values[j] ==
            if j == k && Decide(phase, stage.values, wanted, k).Some?
              then Decide(phase, stage.values, wanted, k).value else stage.values[j]
  {
    hide Decide, Advance, Full;
    AdvanceValues(stage, phase, wanted, k);
    var value := Decide(phase, stage.values, wanted, k);
    UpdateAt(stage.values, k, if value.Some? then value.value else Flag(false), j);
    UpdateAt(wanted, k, Flag(false), j);
  }

  lemma {:induction false} RequestMutates(k: Key, v: Value)
    ensures Mutates(RequestFor(k, v).verb)
  {
    hide PathOf, Resets;
  }

  lemma {:induction false} MoveSafe(stage: Stage, start: Values, phase: Phase, wanted: Values, k: Key, need: Needs)
    requires StageSafe(stage, start, need) && Full(wanted) && Safe(Advance(stage, phase, wanted, k).values, need)
    ensures StageSafe(Advance(stage, phase, wanted, k), start, need)
  {
    hide Safe, Decide, RequestFor;
    var value := Decide(phase, stage.values, wanted, k);
    if value.Some? {
      RequestMutates(k, value.value);
      EveryKey(k);
    }
  }

  // ---- the invariants of the four passes ----

  predicate Cleared(v: Values, wanted: Values, k: Key)
    requires Full(v) && Full(wanted)
  {
    EveryKey(k);
    v[k] == Text("") || v[k] == wanted[k]
  }

  predicate Off(v: Values, wanted: Values, k: Key)
    requires Full(v) && Full(wanted)
  {
    EveryKey(k);
    wanted[k] == Flag(false) ==> v[k] == Flag(false)
  }

  predicate Settled(v: Values, wanted: Values, k: Key)
    requires Full(v) && Full(wanted)
  {
    EveryKey(k);
    v[k] == wanted[k]
  }

  predicate BothCleared(v: Values, wanted: Values)
    requires Full(v) && Full(wanted)
  {
    Cleared(v, wanted, FailAction) && Cleared(v, wanted, TimeoutAction)
  }

  predicate BothOff(v: Values, wanted: Values)
    requires Full(v) && Full(wanted)
  {
    Off(v, wanted, Dot1xEnable) && Off(v, wanted, MacEnable)
  }

  lemma {:induction false} StageFull(stage: Stage, start: Values, need: Needs)
    requires StageSafe(stage, start, need)
    ensures Full(stage.values) && Safe(stage.values, need)
  {
  }

  lemma {:induction false} ClearSafe(v: Values, k: Key, need: Needs)
    requires Full(v) && Safe(v, need) && (k == FailAction || k == TimeoutAction)
    ensures Full(v[k := Text("")]) && Safe(v[k := Text("")], need)
  {
    var x := Text("");
    UpdateAt(v, k, x, Dot1xEnable);
    UpdateAt(v, k, x, MacEnable);
    UpdateAt(v, k, x, DefaultVlan);
    UpdateAt(v, k, x, FailAction);
    UpdateAt(v, k, x, RestrictedVlan);
    UpdateAt(v, k, x, TimeoutAction);
    UpdateAt(v, k, x, CriticalVlan);
    hide Full;
  }

  lemma {:induction false} ClearMove(stage: Stage, start: Values, wanted: Values, k: Key, need: Needs)
    requires StageSafe(stage, start, need) && Full(wanted) && (k == FailAction || k == TimeoutAction)
    ensures var r := Advance(stage, Clear, wanted, k); StageSafe(r, start, need) && Cleared(r.values, wanted, k)
  {
    hide StageSafe, Advance, Full, Safe;
    StageFull(stage, start, need);
    AdvanceValues(stage, Clear, wanted, k);
    ClearSafe(stage.values, k, need);
    MoveAt(stage, Clear, wanted, k, k);
    MoveSafe(stage, start, Clear, wanted, k, need);
  }

  lemma {:induction false} ClearKeeps(stage: Stage, wanted: Values, k: Key, j: Key)
    requires Full(stage.values) && Full(wanted)
    ensures Cleared(stage.values, wanted, j) ==> Cleared(Advance(stage, Clear, wanted, k).values, wanted, j)
  {
    hide Full, Advance;
    MoveAt(stage, Clear, wanted, k, j);
  }

  lemma {:induction false} DisableKeeps(stage: Stage, wanted: Values, k: Key, j: Key)
    requires Full(stage.values) && Full(wanted)
    ensures Off(stage.values, wanted, j) ==> Off(Advance(stage, Disable, wanted, k).values, wanted, j)
    ensures k in FLAGS && (j == FailAction || j == TimeoutAction) && Cleared(stage.values, wanted, j) ==>
              Cleared(Advance(stage, Disable, wanted, k).values, wanted, j)
  {
    hide Full, Advance;
    MoveAt(stage, Disable, wanted, k, j);
  }

  lemma {:induction false} ActKeeps(stage: Stage, wanted: Values, k: Key, j: Key)
    requires Full(stage.values) && Full(wanted)
    ensures Settled(stage.values, wanted, j) ==> Settled(Advance(stage, Act, wanted, k).values, wanted, j)
  {
    hide Full, Advance;
    MoveAt(stage, Act, wanted, k, j);
  }

  lemma {:induction false} ClearPass(stage: Stage, start: Values, wanted: Values, n: nat, need: Needs)
    requires StageSafe(stage, start, need) && Full(wanted) && n <= |ACTIONS|
    ensures var r := Pass(stage, Clear, wanted, ACTIONS[..n]);
            StageSafe(r, start, need) && forall i :: 0 <= i < n ==> Cleared(r.values, wanted, ACTIONS[i])
  {
    hide StageSafe, Advance, Pass, Full, Safe, Cleared;
    StageFull(stage, start, need);
    if n == 0 {
      PassNone(stage, Clear, wanted, ACTIONS);
    } else {
      var k := ACTIONS[n - 1];
      var before := Pass(stage, Clear, wanted, ACTIONS[..n - 1]);
      ClearPass(stage, start, wanted, n - 1, need);
      PassStep(stage, Clear, wanted, ACTIONS, n - 1);
      StageFull(before, start, need);
      ClearMove(before, start, wanted, k, need);
      forall i | 0 <= i < n - 1 ensures Cleared(Advance(before, Clear, wanted, k).values, wanted, ACTIONS[i]) {
        ClearKeeps(before, wanted, k, ACTIONS[i]);
      }
    }
  }

  lemma {:induction false} DisableValues(stage: Stage, wanted: Values, k: Key)
    requires Full(stage.values) && Full(wanted)
    ensures k in stage.values && k in wanted
    ensures Advance(stage, Disable, wanted, k).values ==
            if wanted[k] == Flag(false) then stage.values[k := Flag(false)] else stage.values
  {
    EveryKey(k);
  }

  lemma {:induction false} OffSafe(v: Values, wanted: Values, k: Key, need: Needs)
    requires Full(v) && Full(wanted) && Safe(v, need) && k in FLAGS && k in wanted
    ensures var r := v[k := Flag(false)];
            Full(r) && Safe(r, need) && Off(r, wanted, k) && (BothCleared(v, wanted) ==> BothCleared(r, wanted))
  {
    UpdateAt(v, k, Flag(false), Dot1xEnable);
    UpdateAt(v, k, Flag(false), MacEnable);
    UpdateAt(v, k, Flag(false), DefaultVlan);
    UpdateAt(v, k, Flag(false), FailAction);
    UpdateAt(v, k, Flag(false), RestrictedVlan);
    UpdateAt(v, k, Flag(false), TimeoutAction);
    UpdateAt(v, k, Flag(false), CriticalVlan);
    UpdateAt(v, k, Flag(false), k);
    hide Full;
  }

  lemma {:induction false} DisableMove(stage: Stage, start: Values, wanted: Values, k: Key, need: Needs)
    requires StageSafe(stage, start, need) && Full(wanted) && BothCleared(stage.values, wanted) && k in FLAGS
    ensures var r := Advance(stage, Disable, wanted, k);
            StageSafe(r, start, need) && BothCleared(r.values, wanted) && Off(r.values, wanted, k)
  {
    hide StageSafe, Advance, Full, Safe, BothCleared;
    StageFull(stage, start, need);
    DisableValues(stage, wanted, k);
    OffSafe(stage.values, wanted, k, need);
    MoveSafe(stage, start, Disable, wanted, k, need);
  }

  lemma {:induction false} DisablePass(stage: Stage, start: Values, wanted: Values, n: nat, need: Needs)
    requires StageSafe(stage, start, need) && Full(wanted) && BothCleared(stage.values, wanted) && n <= |FLAGS|
    ensures var r := Pass(stage, Disable, wanted, FLAGS[..n]);
            && StageSafe(r, start, need) && BothCleared(r.values, wanted)
            && forall i :: 0 <= i < n ==> Off(r.values, wanted, FLAGS[i])
  {
    hide StageSafe, Advance, Pass, Full, Safe, Cleared, Off;
    StageFull(stage, start, need);
    if n == 0 {
      PassNone(stage, Disable, wanted, FLAGS);
    } else {
      var k := FLAGS[n - 1];
      var before := Pass(stage, Disable, wanted, FLAGS[..n - 1]);
      DisablePass(stage, start, wanted, n - 1, need);
      PassStep(stage, Disable, wanted, FLAGS, n - 1);
      StageFull(before, start, need);
      DisableMove(before, start, wanted, k, need);
      forall i | 0 <= i < n - 1 ensures Off(Advance(before, Disable, wanted, k).values, wanted, FLAGS[i]) {
        DisableKeeps(before, wanted, k, FLAGS[i]);
      }
    }
  }

  lemma {:induction false} SettleValues(stage: Stage, wanted: Values, k: Key)
    requires Full(stage.values) && Full(wanted)
    ensures k in stage.values && k in wanted && Advance(stage, Settle, wanted, k).values == stage.values[k := wanted[k]]
  {
    EveryKey(k);
  }

  /** Settling a key is safe once the VLAN it depends on is settled, or it no longer
      depends on one. */
  lemma {:induction false} SettleSafe(v: Values, wanted: Values, k: Key, need: Needs)
    requires Full(v) && Full(wanted) && Safe(v, need) && Safe(wanted, need) && k in wanted
    requires BothCleared(v, wanted) && BothOff(v, wanted) && k != FailAction && k != TimeoutAction
    requires k == Dot1xEnable || k == MacEnable ==> Settled(v, wanted, DefaultVlan)
    requires wanted[Dot1xEnable].Flag? && wanted[MacEnable].Flag?
    ensures Full(v[k := wanted[k]]) && Safe(v[k := wanted[k]], need)
  {
    UpdateAt(v, k, wanted[k], Dot1xEnable);
    UpdateAt(v, k, wanted[k], MacEnable);
    UpdateAt(v, k, wanted[k], DefaultVlan);
    UpdateAt(v, k, wanted[k], FailAction);
    UpdateAt(v, k, wanted[k], RestrictedVlan);
    UpdateAt(v, k, wanted[k], TimeoutAction);
    UpdateAt(v, k, wanted[k], CriticalVlan);
    hide Full;
  }

  lemma {:induction false} SettleKeeps(v: Values, wanted: Values, k: Key, j: Key)
    requires Full(v) && Full(wanted) && k in wanted && Full(v[k := wanted[k]])
    ensures Settled(v[k := wanted[k]], wanted, j) <==> j == k || Settled(v, wanted, j)
    ensures Cleared(v, wanted, j) ==> Cleared(v[k := wanted[k]], wanted, j)
    ensures Off(v, wanted, j) ==> Off(v[k := wanted[k]], wanted, j)
  {
    UpdateAt(v, k, wanted[k], j);
    hide Full;
  }

  lemma {:induction false} SettleMove(stage: Stage, start: Values, wanted: Values, k: Key, need: Needs)
    requires StageSafe(stage, start, need) && Full(wanted) && Safe(wanted, need)
    requires BothCleared(stage.values, wanted) && BothOff(stage.values, wanted) && k in SETTINGS
    requires k == Dot1xEnable || k == MacEnable ==> Settled(stage.values, wanted, DefaultVlan)
    requires wanted[Dot1xEnable].Flag? && wanted[MacEnable].Flag?
    ensures var r := Advance(stage, Settle, wanted, k);
            StageSafe(r, start, need) && BothCleared(r.values, wanted) && BothOff(r.values, wanted)
              && r.values == stage.values[k := wanted[k]]
  {
    hide StageSafe, Advance, Full, Safe, Cleared, Off, Settled;
    StageFull(stage, start, need);
    SettleValues(stage, wanted, k);
    assert k != FailAction && k != TimeoutAction;
    SettleSafe(stage.values, wanted, k, need);
    SettleKeeps(stage.values, wanted, k, FailAction);
    SettleKeeps(stage.values, wanted, k, TimeoutAction);
    SettleKeeps(stage.values, wanted, k, Dot1xEnable);
    SettleKeeps(stage.values, wanted, k, MacEnable);
    MoveSafe(stage, start, Settle, wanted, k, need);
  }

  predicate SettledUpTo(v: Values, wanted: Values, n: nat)
    requires Full(v) && Full(wanted) && n <= |SETTINGS|
  {
    forall i :: 0 <= i < n ==> Settled(v, wanted, SETTINGS[i])
  }

  lemma {:induction false} SettleNext(before: Stage, start: Values, wanted: Values, n: nat, need: Needs)
    requires StageSafe(before, start, need) && Full(wanted) && Safe(wanted, need) && n < |SETTINGS|
    requires BothCleared(before.values, wanted) && BothOff(before.values, wanted)
             && SettledUpTo(before.values, wanted, n)
    requires wanted[Dot1xEnable].Flag? && wanted[MacEnable].Flag?
    ensures var r := Advance(before, Settle, wanted, SETTINGS[n]);
            && StageSafe(r, start, need) && BothCleared(r.values, wanted) && BothOff(r.values, wanted)
            && SettledUpTo(r.values, wanted, n + 1)
  {
    hide StageSafe, Advance, Full, Safe, BothCleared, BothOff, Settled;
    var k := SETTINGS[n];
    StageFull(before, start, need);
    assert n > 0 ==> Settled(before.values, wanted, SETTINGS[0]);
    SettleMove(before, start, wanted, k, need);
    SettleValues(before, wanted, k);
    forall i | 0 <= i < n + 1 ensures Settled(before.values[k := wanted[k]], wanted, SETTINGS[i]) {
      SettleKeeps(before.values, wanted, k, SETTINGS[i]);
    }
  }

  lemma {:induction false} SettlePass(stage: Stage, start: Values, wanted: Values, n: nat, need: Needs)
    requires StageSafe(stage, start, need) && Full(wanted) && Safe(wanted, need)
    requires BothCleared(stage.values, wanted) && BothOff(stage.values, wanted) && n <= |SETTINGS|
    requires wanted[Dot1xEnable].Flag? && wanted[MacEnable].Flag?
    ensures var r := Pass(stage, Settle, wanted, SETTINGS[..n]);
            && StageSafe(r, start, need) && BothCleared(r.values, wanted) && BothOff(r.values, wanted)
            && SettledUpTo(r.values, wanted, n)
  {
    hide StageSafe, Advance, Pass, Full, Safe, BothCleared, BothOff, SettledUpTo;
    StageFull(stage, start, need);
    if n == 0 {
      PassNone(stage, Settle, wanted, SETTINGS);
      NoneSettled(stage.values, wanted);
    } else {
      var before := Pass(stage, Settle, wanted, SETTINGS[..n - 1]);
      SettlePass(stage, start, wanted, n - 1, need);
      PassStep(stage, Settle, wanted, SETTINGS, n - 1);
      StageFull(before, start, need);
      SettleNext(before, start, wanted, n - 1, need);
    }
  }

  lemma {:induction false} NoneSettled(v: Values, wanted: Values)
    requires Full(v) && Full(wanted)
    ensures SettledUpTo(v, wanted, 0)
  {
  }

  predicate AllSettled(v: Values, wanted: Values)
    requires Full(v) && Full(wanted)
  {
    SettledUpTo(v, wanted, |SETTINGS|)
  }

  lemma {:induction false} SettledAt(v: Values, wanted: Values, k: Key)
    requires Full(v) && Full(wanted) && AllSettled(v, wanted) && k != FailAction && k != TimeoutAction
    ensures Settled(v, wanted, k)
  {
    hide Settled, Full;
    assert SETTINGS[0] == DefaultVlan && SETTINGS[1] == RestrictedVlan && SETTINGS[2] == CriticalVlan
      && SETTINGS[3] == VoiceVlan;
    assert SETTINGS[4] == MaxSessions && SETTINGS[5] == Reauthentication && SETTINGS[6] == AuthOrder
      && SETTINGS[7] == Dot1xEnable;
    assert SETTINGS[8] == MacEnable && SETTINGS[9] == MacDot1xDisable && SETTINGS[10] == MacDot1xOverride;
  }

  /** With every VLAN settled, a desired action has what it needs. */
  lemma {:induction false} ActSafe(v: Values, wanted: Values, k: Key, need: Needs)
    requires Full(v) && Full(wanted) && Safe(v, need) && Safe(wanted, need) && k in wanted
             && (k == FailAction || k == TimeoutAction)
    requires Settled(v, wanted, RestrictedVlan) && Settled(v, wanted, CriticalVlan)
    ensures Full(v[k := wanted[k]]) && Safe(v[k := wanted[k]], need)
  {
    UpdateAt(v, k, wanted[k], Dot1xEnable);
    UpdateAt(v, k, wanted[k], MacEnable);
    UpdateAt(v, k, wanted[k], DefaultVlan);
    UpdateAt(v, k, wanted[k], FailAction);
    UpdateAt(v, k, wanted[k], RestrictedVlan);
    UpdateAt(v, k, wanted[k], TimeoutAction);
    UpdateAt(v, k, wanted[k], CriticalVlan);
    hide Full;
  }

  lemma {:induction false} ActValues(stage: Stage, wanted: Values, k: Key)
    requires Full(stage.values) && Full(wanted) && Cleared(stage.values, wanted, k)
    ensures k in stage.values && k in wanted && Advance(stage, Act, wanted, k).values == stage.values[k := wanted[k]]
  {
    EveryKey(k);
  }

  lemma {:induction false} ActMove(stage: Stage, start: Values, wanted: Values, k: Key, need: Needs)
    requires StageSafe(stage, start, need) && Full(wanted) && Safe(wanted, need) && AllSettled(stage.values, wanted)
    requires BothCleared(stage.values, wanted) && (k == FailAction || k == TimeoutAction)
    ensures var r := Advance(stage, Act, wanted, k);
            StageSafe(r, start, need) && BothCleared(r.values, wanted) && AllSettled(r.values, wanted)
              && Settled(r.values, wanted, k)
  {
    hide StageSafe, Advance, Full, AllSettled, Safe, Settled, Cleared;
    StageFull(stage, start, need);
    SettledAt(stage.values, wanted, RestrictedVlan);
    SettledAt(stage.values, wanted, CriticalVlan);
    ActValues(stage, wanted, k);
    ActSafe(stage.values, wanted, k, need);
    SettleKeeps(stage.values, wanted, k, k);
    SettleKeeps(stage.values, wanted, k, FailAction);
    SettleKeeps(stage.values, wanted, k, TimeoutAction);
    MoveSafe(stage, start, Act, wanted, k, need);
    SettledStays(stage, wanted, k);
  }

  lemma {:induction false} SettledStays(stage: Stage, wanted: Values, k: Key)
    requires Full(stage.values) && Full(wanted) && AllSettled(stage.values, wanted)
             && (k == FailAction || k == TimeoutAction)
    ensures AllSettled(Advance(stage, Act, wanted, k).values, wanted)
  {
    hide Full, Advance;
    forall i | 0 <= i < |SETTINGS| ensures Settled(Advance(stage, Act, wanted, k).values, wanted, SETTINGS[i]) {
      assert Settled(stage.values, wanted, SETTINGS[i]);
      MoveAt(stage, Act, wanted, k, SETTINGS[i]);
    }
  }

  lemma {:induction false} ActPass(stage: Stage, start: Values, wanted: Values, n: nat, need: Needs)
    requires StageSafe(stage, start, need) && Full(wanted) && Safe(wanted, need) && AllSettled(stage.values, wanted)
    requires BothCleared(stage.values, wanted) && n <= |ACTIONS|
    ensures var r := Pass(stage, Act, wanted, ACTIONS[..n]);
            && StageSafe(r, start, need) && BothCleared(r.values, wanted) && AllSettled(r.values, wanted)
            && forall i :: 0 <= i < n ==> Settled(r.values, wanted, ACTIONS[i])
  {
    hide StageSafe, Advance, Pass, Full, Safe, Cleared, AllSettled, Settled;
    StageFull(stage, start, need);
    if n == 0 {
      PassNone(stage, Act, wanted, ACTIONS);
    } else {
      var k := ACTIONS[n - 1];
      var before := Pass(stage, Act, wanted, ACTIONS[..n - 1]);
      ActPass(stage, start, wanted, n - 1, need);
      PassStep(stage, Act, wanted, ACTIONS, n - 1);
      StageFull(before, start, need);
      ActMove(before, start, wanted, k, need);
      forall i | 0 <= i < n - 1 ensures Settled(Advance(before, Act, wanted, k).values, wanted, ACTIONS[i]) {
        ActKeeps(before, wanted, k, ACTIONS[i]);
      }
    }
  }

  lemma {:induction false} ValidSafe(desired: Config, need: Needs)
    requires Valid(desired)
    ensures var w := ValuesOf(desired);
            && Full(w) && Dot1xEnable in w && MacEnable in w && w[Dot1xEnable].Flag? && w[MacEnable].Flag?
            && Safe(w, need)
  {
    SafeIsGrounded(desired);
    EveryKey(Dot1xEnable);
    EveryKey(MacEnable);
  }

  /** From a safe start, every state the plan passes through is safe, and it ends at the
      desired values. */
  lemma {:induction false} PlanSafe(start: Values, desired: Config, need: Needs)
    requires Full(start) && Safe(start, need) && Valid(desired)
    ensures var plan := Plan(start, ValuesOf(desired)); StageSafe(plan, start, need) && plan.values == ValuesOf(desired)
  {
    hide Pass, Safe, Full, ValuesOf, Valid, Cleared, Off, Settled;
    var wanted := ValuesOf(desired);
    ValidSafe(desired, need);
    var begin := Stage(start, []);
    ClearPass(begin, start, wanted, |ACTIONS|, need);
    assert ACTIONS[..|ACTIONS|] == ACTIONS && ACTIONS[0] == FailAction && ACTIONS[1] == TimeoutAction;
    var cleared := Pass(begin, Clear, wanted, ACTIONS);
    DisablePass(cleared, start, wanted, |FLAGS|, need);
    assert FLAGS[..|FLAGS|] == FLAGS && FLAGS[2] == Dot1xEnable && FLAGS[3] == MacEnable;
    var disabled := Pass(cleared, Disable, wanted, FLAGS);
    SettlePass(disabled, start, wanted, |SETTINGS|, need);
    assert SETTINGS[..|SETTINGS|] == SETTINGS;
    var settled := Pass(disabled, Settle, wanted, SETTINGS);
    ActPass(settled, start, wanted, |ACTIONS|, need);
    AllEqual(Pass(settled, Act, wanted, ACTIONS).values, wanted);
  }

  lemma {:induction false} AllEqual(v: Values, wanted: Values)
    requires Full(v) && Full(wanted) && AllSettled(v, wanted)
    requires Settled(v, wanted, FailAction) && Settled(v, wanted, TimeoutAction)
    ensures v == wanted
  {
    hide AllSettled;
    forall k ensures k in v && k in wanted && v[k] == wanted[k] {
      EveryKey(k);
      if k != FailAction && k != TimeoutAction { SettledAt(v, wanted, k); }
    }
  }

  // ---- every device ----

  predicate Implied(before: Needs, after: Needs) {
    && (before.features ==> after.features) && (before.failure ==> after.failure) && (before.timeout ==> after.timeout)
  }

  lemma {:induction false} SafeMeets(v: Values, need: Needs)
    requires Full(v)
    ensures Safe(v, need) <==> Implied(need, Met(v))
  {
    hide Full;
  }

  /** Whatever the device answers: each prerequisite the start meets is met by every accepted
      readback, which leaves all other configuration as it was; and success means all
      settings were read back with their desired values. */
  lemma {:induction false} ArbitraryDevice<S>(d: AuthDevice<S>, state: S, desired: Config, ports: seq<Port>,
        vlans: set<Int64>)
    requires Valid(desired)
    requires var view := AfterLook(d, Fresh<S, Content>(state)).1; view.Some? && Full(view.value.owned)
    ensures var r := Applied(d, state, desired, ports, vlans);
            var before := AfterLook(d, Fresh<S, Content>(state)).1.value;
            && (forall i :: 0 <= i < |r.accepted| ==>
                  && r.accepted[i].unowned == before.unowned && Full(r.accepted[i].owned)
                  && Implied(Met(before.owned), Met(r.accepted[i].owned)))
            && (r.failure.None? ==> r.current == ValuesOf(desired) && r.session.err.None?)
  {
    hide Plan, Run, Safe, Startable, Full, Valid, ValuesOf, Met;
    var (s, view) := AfterLook(d, Fresh<S, Content>(state));
    var start := view.value.owned;
    var need := Met(start);
    ValidSafe(desired, need);
    PlanSafe(start, desired, need);
    RunFollows(d, s.state, start, Plan(start, ValuesOf(desired)).steps, view.value.unowned);
    forall v | Full(v) ensures Safe(v, need) <==> Implied(need, Met(v)) {
      SafeMeets(v, need);
    }
  }

  // ---- a device that refuses unsafe states ----

  datatype AuthState = AuthState(values: Values, others: seq<string>)

  /** Applies the one change a request stands for, and refuses what is not such a change or
      would leave a feature or an action without what it needs. */
  ghost function GuardedSend(s: AuthState, r: Request<Content>, need: Needs): (out: (AuthState, Reply)) {
    if exists k, v :: Settable(k, v) && Changes(r, k, v) then
      var k, v :| Settable(k, v) && Changes(r, k, v);
      var next := s.values[k := v];
      if Full(next) && Safe(next, need) then (s.(values := next), Done) else (s, Refused)
    else (s, Refused)
  }

  ghost function GuardedDevice(need: Needs): (d: AuthDevice<AuthState>) {
    Device((s: AuthState, r) => GuardedSend(s, r, need),
           (s: AuthState) => (s, Some(View(s.values, s.others))),
           (s: AuthState, g: ()) => (s, true))
  }

  lemma {:induction false} GuardedAccepts(s: AuthState, k: Key, v: Value, need: Needs)
    requires Settable(k, v) && Full(s.values[k := v]) && Safe(s.values[k := v], need)
    ensures GuardedSend(s, RequestFor(k, v), need) == (s.(values := s.values[k := v]), Done)
  {
    hide Settable, Changes, RequestFor, Full, Safe;
    RequestMeans(k, v, k, v);
    forall j, u ensures Changes(RequestFor(k, v), j, u) <==> j == k && u == v {
      RequestMeans(k, v, j, u);
    }
  }

  /** A step that sets one key to a value it may have. */
  ghost predicate Sets(v: Values, step: AuthStep, k: Key, x: Value) {
    Settable(k, x) && step == StepFor(v, k, x)
  }

  ghost predicate SetsOne(v: Values, step: AuthStep) { exists k, x :: Sets(v, step, k, x) }

  /** Each step sets one key of the state the steps before it lead to. */
  ghost predicate Chain(start: Values, steps: seq<AuthStep>) {
    forall i :: 0 <= i < |steps| ==> SetsOne(Before(start, steps, i), steps[i])
  }

  function Before(start: Values, steps: seq<AuthStep>, i: nat): (r: Values)
    requires i <= |steps|
  {
    if i == 0 then start else steps[i - 1].expected
  }

  lemma {:induction false} DecidesSettable(phase: Phase, v: Values, desired: Config, k: Key)
    requires Full(v) && Valid(desired)
    requires (phase.Clear? ==> k in ACTIONS) && (phase.Disable? ==> k in FLAGS)
    ensures Decide(phase, v, ValuesOf(desired), k).Some? ==> Settable(k, Decide(phase, v, ValuesOf(desired), k).value)
  {
    EveryKey(k);
  }

  lemma {:induction false} MoveChains(stage: Stage, start: Values, phase: Phase, desired: Config, k: Key, need: Needs)
    requires StageSafe(stage, start, need) && Chain(start, stage.steps) && Valid(desired)
    requires (phase.Clear? ==> k in ACTIONS) && (phase.Disable? ==> k in FLAGS)
    ensures Chain(start, Advance(stage, phase, ValuesOf(desired), k).steps)
  {
    hide Decide, Safe, Settable, Full, ValuesOf, Valid, StepFor, SetsOne, Chain, StageSafe, Advance;
    StageFull(stage, start, need);
    ValidSafe(desired, need);
    DecidesSettable(phase, stage.values, desired, k);
    AdvanceSteps(stage, start, phase, ValuesOf(desired), k, need);
    var value := Decide(phase, stage.values, ValuesOf(desired), k);
    if value.Some? {
      var step := StepFor(stage.values, k, value.value);
      OneSet(stage.values, step, k, value.value);
      ChainExtends(start, stage.steps, step);
    }
  }

  lemma {:induction false} AdvanceSteps(stage: Stage, start: Values, phase: Phase, wanted: Values, k: Key, need: Needs)
    requires StageSafe(stage, start, need) && Full(wanted)
    ensures Full(stage.values) && Before(start, stage.steps, |stage.steps|) == stage.values
    ensures var value := Decide(phase, stage.values, wanted, k);
            Advance(stage, phase, wanted, k).steps ==
            if value.None? then stage.steps else stage.steps + [StepFor(stage.values, k, value.value)]
  {
    hide Decide, Safe, StepFor;
  }

  lemma {:induction false} ChainExtends(start: Values, steps: seq<AuthStep>, step: AuthStep)
    requires Chain(start, steps) && SetsOne(Before(start, steps, |steps|), step)
    ensures Chain(start, steps + [step])
  {
    hide SetsOne;
    var all := steps + [step];
    forall i | 0 <= i < |all| ensures SetsOne(Before(start, all, i), all[i]) {
      if i < |steps| {
        assert SetsOne(Before(start, steps, i), steps[i]);
      }
    }
  }

  lemma {:induction false} OneSet(v: Values, step: AuthStep, k: Key, x: Value)
    requires Settable(k, x) && step == StepFor(v, k, x)
    ensures SetsOne(v, step)
  {
    hide Settable, StepFor;
    assert Sets(v, step, k, x);
  }

  lemma {:induction false} PassChains(stage: Stage, start: Values, phase: Phase, desired: Config, keys: seq<Key>,
        n: nat, need: Needs)
    requires n <= |keys| && Full(stage.values) && Valid(desired)
    requires forall i :: 0 <= i <= n ==> StageSafe(Pass(stage, phase, ValuesOf(desired), keys[..i]), start, need)
    requires Chain(start, stage.steps)
    requires (phase.Clear? ==> keys == ACTIONS) && (phase.Disable? ==> keys == FLAGS)
    ensures Chain(start, Pass(stage, phase, ValuesOf(desired), keys[..n]).steps)
  {
    hide StageSafe, Chain, Pass, ValuesOf, Valid, Advance, Full;
    ValidSafe(desired, need);
    if n == 0 {
      PassNone(stage, phase, ValuesOf(desired), keys);
    } else {
      PassChains(stage, start, phase, desired, keys, n - 1, need);
      PassStep(stage, phase, ValuesOf(desired), keys, n - 1);
      MoveChains(Pass(stage, phase, ValuesOf(desired), keys[..n - 1]), start, phase, desired, keys[n - 1], need);
    }
  }

  lemma {:induction false} PlanChains(start: Values, desired: Config, need: Needs)
    requires Full(start) && Safe(start, need) && Valid(desired)
    ensures Chain(start, Plan(start, ValuesOf(desired)).steps)
  {
    hide Pass, Safe, Full, ValuesOf, Valid, Cleared, Off, Settled, StageSafe, Chain;
    var wanted := ValuesOf(desired);
    ValidSafe(desired, need);
    var begin := Stage(start, []);
    BeginSafe(start, need);
    forall i: nat | i <= |ACTIONS| { ClearPass(begin, start, wanted, i, need); }
    assert ACTIONS[..|ACTIONS|] == ACTIONS && ACTIONS[0] == FailAction && ACTIONS[1] == TimeoutAction;
    PassChains(begin, start, Clear, desired, ACTIONS, |ACTIONS|, need);
    var cleared := Pass(begin, Clear, wanted, ACTIONS);
    forall i: nat | i <= |FLAGS| { DisablePass(cleared, start, wanted, i, need); }
    assert FLAGS[..|FLAGS|] == FLAGS && FLAGS[2] == Dot1xEnable && FLAGS[3] == MacEnable;
    PassChains(cleared, start, Disable, desired, FLAGS, |FLAGS|, need);
    var disabled := Pass(cleared, Disable, wanted, FLAGS);
    forall i: nat | i <= |SETTINGS| { SettlePass(disabled, start, wanted, i, need); }
    assert SETTINGS[..|SETTINGS|] == SETTINGS;
    PassChains(disabled, start, Settle, desired, SETTINGS, |SETTINGS|, need);
    var settled := Pass(disabled, Settle, wanted, SETTINGS);
    forall i: nat | i <= |ACTIONS| { ActPass(settled, start, wanted, i, need); }
    PassChains(settled, start, Act, desired, ACTIONS, |ACTIONS|, need);
  }

  lemma {:induction false} BeginSafe(start: Values, need: Needs)
    requires Full(start) && Safe(start, need)
    ensures StageSafe(Stage(start, []), start, need) && Chain(start, [])
  {
    hide Safe;
  }

  lemma {:induction false} ChainTracks(start: Values, steps: seq<AuthStep>, p: Progress<AuthState, Content, Values>,
        others: seq<string>, n: nat, need: Needs)
    requires Chain(start, steps) && n <= |steps| && (forall i :: 0 <= i < |steps| ==> StepSafe(steps[i], need))
    requires OnTrack(p, AuthState(start, others), start)
    ensures var v := Before(start, steps, n);
            OnTrack(Run(GuardedDevice(need), p, steps[..n], others), AuthState(v, others), v)
  {
    hide OnTrack, SetsOne, StepSafe, Run, Wrote;
    if n == 0 {
      RunNothing(GuardedDevice(need), p, others);
      assert steps[..0] == [];
    } else {
      var v := Before(start, steps, n - 1);
      var step := steps[n - 1];
      ChainTracks(start, steps, p, others, n - 1, need);
      assert steps[..n] == steps[..n - 1] + [step];
      RunExtend(GuardedDevice(need), p, steps[..n - 1], step, others);
      assert SetsOne(v, step);
      StepTracks(v, step, Run(GuardedDevice(need), p, steps[..n - 1], others), others, need);
    }
  }

  lemma {:induction false} StepTracks(v: Values, step: AuthStep, p: Progress<AuthState, Content, Values>,
        others: seq<string>, need: Needs)
    requires SetsOne(v, step) && StepSafe(step, need) && OnTrack(p, AuthState(v, others), v)
    ensures OnTrack(Wrote(GuardedDevice(need), p, step, others), AuthState(step.expected, others), step.expected)
  {
    hide OnTrack, Wrote, GuardedSend, Settable, RequestFor, Full, Safe;
    var k, x :| Sets(v, step, k, x);
    GuardedAccepts(AuthState(v, others), k, x, need);
    StaysOnTrack(GuardedDevice(need), p, AuthState(v, others), v, AuthState(step.expected, others), step, others);
  }

  /** A device that refuses every state without the prerequisites asked for refuses nothing
      of the plan of a start that has them, and ends with the desired values and nothing else
      changed. */
  lemma {:induction false} Completes(s: AuthState, desired: Config, ports: seq<Port>, vlans: set<Int64>, need: Needs)
    requires Valid(desired) && Full(s.values) && Safe(s.values, need) && Startable(s.values, desired, ports, vlans)
    ensures var r := Applied(GuardedDevice(need), s, desired, ports, vlans);
            && r.failure.None? && AllDone(r.session.sent)
            && r.session.state == s.(values := ValuesOf(desired)) && r.current == ValuesOf(desired)
  {
    hide Plan, Run, Safe, Startable, Full, Valid, ValuesOf, GuardedSend, Chain, StepSafe, Wrote;
    ValidSafe(desired, need);
    PlanSafe(s.values, desired, need);
    PlanChains(s.values, desired, need);
    var steps := Plan(s.values, ValuesOf(desired)).steps;
    var p := Progress(Fresh<AuthState, Content>(s), s.values, [], None);
    assert OnTrack(p, AuthState(s.values, s.others), s.values);
    ChainTracks(s.values, steps, p, s.others, |steps|, need);
    assert steps[..|steps|] == steps;
  }
}
