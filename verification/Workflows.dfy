/** Whole workflows: validate, reconcile in one update scope, then save or not; and what
    makes a save count as done. */
module Workflows {
  import opened Prelude
  import opened Native
  import opened RoundTrip
  import opened Updating
  import opened CheckedWrites
  import opened AclNames
  import Rules = RuleReconcile
  import RuleSafety
  import MacCodec
  import MacEntries
  import Mac = MacReconcile
  import MacSafety

  /** An IP or standard list. Invalid names and rules and devices without RESTCONF reach
      nothing; otherwise the device sees exactly the reconciliation, which alone decides
      whether to save, and the workflow succeeds exactly if it does and a save is confirmed. */
  method ApplyRules<S, R(==)>(d: Rules.RuleDevice<S, R>, start: S, family: Rules.Family<R>, name: string,
        desired: Rules.Rules<R>, restconf: bool, around: Surroundings, persistence: string)
    returns (failed: bool, save: bool, ghost end: Progress<S, Rules.Content<R>, Rules.Owned<R>>)
    ensures var begins := family.named(name) && Rules.Valid(family, desired) && restconf && around.Begins();
            end == if begins then Rules.Applied(d, start, family, desired)
              else Progress(Fresh(start), None, [], Some(Declined))
    ensures !(family.named(name) && Rules.Valid(family, desired) && restconf && around.Begins()) ==> failed && !save
    ensures !failed && persistence == "after_each_write" ==> save && around.confirmed
    ensures save <==> end.failure.None? && persistence == "after_each_write"
    ensures failed <==> end.failure.Some? || (save && !around.confirmed)
    ensures end.failure.None? ==> end.current == Some(desired)
  {
    hide Rules.Valid, Rules.Applied;
    end := Progress(Fresh(start), None, [], Some(Declined));
    var ok := Rules.Validate(family, name, desired);
    if !ok || !restconf || !around.Begins() {
      return true, false, end;
    }
    var update := new Update(start);
    var current, failure, accepted := Rules.Apply(d, update, family, desired);
    end := Progress(update.Now(), current, accepted, failure);
    RulesSucceed(d, start, family, desired);
    failed, save := update.Finish(failure.Some?, persistence);
    failed := around.Fails(failed, save);
  }

  lemma {:induction false} RulesSucceed<S, R>(d: Rules.RuleDevice<S, R>, start: S, family: Rules.Family<R>,
        desired: Rules.Rules<R>)
    ensures var r := Rules.Applied(d, start, family, desired);
            r.failure.None? ==> r.session.err.None? && r.current == Some(desired)
  {
    hide Rules.Applied;
    if AfterLook(d, Fresh<S, Rules.Content<R>>(start)).1.Some? {
      RuleSafety.ArbitraryDevice(d, start, family, desired);
    } else {
      RuleSafety.UnreadableSendsNothing(d, start, family, desired);
    }
  }

  /** A MAC list, likewise; more rules than entry IDs are refused at the start. */
  method ApplyMAC<S>(d: Mac.MacDevice<S>, start: S, name: string, desired: seq<MacCodec.MacRule>, restconf: bool,
        around: Surroundings, persistence: string)
    returns (failed: bool, save: bool, ghost end: Progress<S, Mac.Content, Mac.Owned>)
    ensures var begins := MacName(name) && MacEntries.ValidRules(desired) && restconf && around.Begins();
            end == if begins && |desired| <= MacCodec.LAST_ID then Mac.Applied(d, start, name, desired)
                   else Progress(Fresh(start), None, [], Some(Declined))
    ensures !(MacName(name) && MacEntries.ValidRules(desired) && restconf && around.Begins()) ==> failed && !save
    ensures !failed && persistence == "after_each_write" ==> save && around.confirmed
    ensures save <==> end.failure.None? && persistence == "after_each_write"
    ensures failed <==> end.failure.Some? || (save && !around.confirmed)
    ensures end.failure.None? ==> end.current == Some(desired)
  {
    hide MacEntries.ValidRules, Mac.Applied;
    end := Progress(Fresh(start), None, [], Some(Declined));
    var ok := MacEntries.Validate(name, desired);
    if !ok || |desired| > 65000 || !restconf || !around.Begins() {
      return true, false, end;
    }
    var update := new Update(start);
    var current, failure, accepted := Mac.Apply(d, update, name, desired);
    end := Progress(update.Now(), current, accepted, failure);
    MacSucceeds(d, start, name, desired);
    failed, save := update.Finish(failure.Some?, persistence);
    failed := around.Fails(failed, save);
  }

  lemma {:induction false} MacSucceeds<S>(d: Mac.MacDevice<S>, start: S, name: string, desired: seq<MacCodec.MacRule>)
    requires |desired| <= MacCodec.LAST_ID
    ensures var r := Mac.Applied(d, start, name, desired);
            r.failure.None? ==> r.session.err.None? && r.current == Some(desired)
  {
    if AfterLook(Mac.Lift(d, name), Fresh<S, Mac.Content>(start)).1.Some? {
      hide Mac.Applied;
      MacSafety.ArbitraryDevice(d, start, name, desired);
    } else {
      hide Mac.Plan;
    }
  }

  // ---- saving ----

  const WRITTEN := "Write startup-config done."
  const UNCHANGED := "write memory completed. No new config is added."

  predicate Contains(s: string, part: string) {
    part <= s || (s != "" && Contains(s[1..], part))
  }

  /** The text has the part somewhere in it. */
  ghost predicate Occurs(part: string, s: string) { exists i: nat :: OccursAt(part, s, i) }

  ghost predicate OccursAt(part: string, s: string, i: nat) { i + |part| <= |s| && s[i..i + |part|] == part }

  lemma {:induction false} ContainsIs(s: string, part: string)
    ensures Contains(s, part) <==> Occurs(part, s)
  {
    assert part <= s <==> OccursAt(part, s, 0);
    if s != "" {
      ContainsIs(s[1..], part);
      forall i: nat ensures OccursAt(part, s, i + 1) <==> OccursAt(part, s[1..], i) {
        if i + 1 + |part| <= |s| { assert s[1..][i..i + |part|] == s[i + 1..i + 1 + |part|]; }
      }
      if i: nat :| OccursAt(part, s, i) {
        if i > 0 { assert OccursAt(part, s[1..], i - 1); }
      }
    }
  }

  /** The device says that it saved, or that there was nothing new to save. */
  ghost predicate Confirmed(output: string) { Occurs(WRITTEN, output) || Occurs(UNCHANGED, output) }

  /** Running and startup configuration, both complete, print alike. */
  predicate SameConfiguration(g: Grammar, running: string, startup: string) {
    var r, s := Parse(g, running), Parse(g, startup);
    r.Ok? && s.Ok? && Print(r.value) == Print(s.value)
  }

  /** `written` is what the save command printed, and `shown` the two configurations, where
      the commands could be run. For readable output a confirmed save means that the two
      documents have the same commands, scopes and indentation. */
  method Saved(g: Grammar, written: Option<string>, shown: Option<(string, string)>) returns (ok: bool)
    ensures ok <==> && written.Some? && Confirmed(written.value)
                    && shown.Some? && SameConfiguration(g, shown.value.0, shown.value.1)
    ensures ok && StrayFree(shown.value.0) && StrayFree(shown.value.1) ==>
              Parse(g, shown.value.0).Ok? && Parse(g, shown.value.0) == Parse(g, shown.value.1)
  {
    hide Contains, Occurs, Parse, Print, StrayFree;
    if written.None? {
      return false;
    }
    ContainsIs(written.value, WRITTEN);
    ContainsIs(written.value, UNCHANGED);
    if !Contains(written.value, WRITTEN) && !Contains(written.value, UNCHANGED) {
      return false;
    }
    if shown.None? {
      return false;
    }
    var (running, startup) := shown.value;
    SavedMeansSameDocument(g, running, startup);
    var r := Parse(g, running);
    if r.Err? {
      return false;
    }
    var s := Parse(g, startup);
    if s.Err? {
      return false;
    }
    ok := Print(r.value) == Print(s.value);
  }

  /** Comparing printed forms is comparing documents where the output is readable. */
  lemma {:induction false} SavedMeansSameDocument(g: Grammar, running: string, startup: string)
    ensures StrayFree(running) && StrayFree(startup) ==>
              (SameConfiguration(g, running, startup) <==>
                 Parse(g, running).Ok? && Parse(g, running) == Parse(g, startup))
  {
    hide Parse, Print, StrayFree;
    if StrayFree(running) && StrayFree(startup) && Parse(g, running).Ok? && Parse(g, startup).Ok? {
      EqualPrintsEqualDocuments(g, running, startup);
    }
  }
}
