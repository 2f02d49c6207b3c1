/** Matching a MAC list's REST entries to its native rules, and choosing entry IDs for the
    rules wanted. */
module MacEntries {
  import opened Prelude
  import opened Sorting
  import opened MacCodec
  import opened AclNames

  datatype AclSet = AclSet(name: string, kind: string, entries: seq<RestEntry>)

  const BY_ID := (a: RestEntry, b: RestEntry) => a.id <= b.id

  predicate Named(acl: AclSet, name: string) {
    acl.name == name && Unqualified(acl.kind) == "ACL_L2"
  }

  // ---- validation ----

  ghost predicate ValidRules(rules: seq<MacRule>) {
    (forall i :: 0 <= i < |rules| ==> LegalRule(rules[i])) && Distinct(rules)
  }

  method CheckRule(rule: MacRule) returns (ok: bool)
    ensures ok <==> LegalRule(rule)
  {
    if rule.action != "permit" && rule.action != "deny" {
      return false;
    }
    if rule.etherType.Some? && (rule.etherType.value < 0x600 || rule.etherType.value > 0xffff) {
      return false;
    }
    for i := 0 to 2
      invariant i > 0 ==> LegalMatch(rule.source)
      invariant i > 1 ==> LegalMatch(rule.destination)
    {
      var match_ := [rule.source, rule.destination][i];
      if match_.mask == ZERO && match_.address != ZERO {
        return false;
      }
    }
    return true;
  }

  /** A legal name, and legal rules without repetition. */
  method Validate(name: string, rules: seq<MacRule>) returns (ok: bool)
    ensures ok <==> MacName(name) && ValidRules(rules)
  {
    hide LegalRule;
    if !NameOk(name) {
      return false;
    }
    var first := name[0];
    if !('a' <= first <= 'z' || 'A' <= first <= 'Z') {
      return false;
    }
    var seen: set<MacRule> := {};
    for i := 0 to |rules|
      invariant seen == set j | 0 <= j < i :: rules[j]
      invariant forall j :: 0 <= j < i ==> LegalRule(rules[j])
      invariant forall j, k :: 0 <= j < k < i ==> rules[j] != rules[k]
    {
      var ok := CheckRule(rules[i]);
      if !ok || rules[i] in seen {
        return false;
      }
      seen := seen + {rules[i]};
    }
    return true;
  }

  // ---- the REST collection ----

  /** The i-th entry in ID order as the entry of the i-th native rule. Reloads lose logging
      metadata, which native configuration keeps. */
  function EntryAt(sorted: seq<RestEntry>, native: seq<MacRule>, i: nat): (e: Option<MacEntry>)
    requires i < |sorted| == |native|
    ensures e.Some? ==> e.value.rule == native[i] && e.value.id == sorted[i].id && 1 <= e.value.id <= LAST_ID
    ensures e.Some? && i > 0 ==> sorted[i].id != sorted[i - 1].id
  {
    var rule := Decode(sorted[i]);
    if rule.None? || (i > 0 && sorted[i].id == sorted[i - 1].id) then None
    else
      var full := if sorted[i].log == "" then rule.value.(log := native[i].log) else rule.value;
      if full != native[i] then None else Some(MacEntry(sorted[i].id, full))
  }

  function EntriesUpTo(sorted: seq<RestEntry>, native: seq<MacRule>, n: nat): (r: Option<seq<MacEntry>>)
    requires n <= |sorted| == |native|
    ensures r.Some? ==> |r.value| == n && forall i :: 0 <= i < n ==> Some(r.value[i]) == EntryAt(sorted, native, i)
  {
    if n == 0 then Some([])
    else
      var before := EntriesUpTo(sorted, native, n - 1);
      if before.None? then None
      else
        var e := EntryAt(sorted, native, n - 1);
        if e.None? then None else Some(before.value + [e.value])
  }

  function Entries(reply: Option<seq<AclSet>>, name: string, native: Option<seq<MacRule>>): (r: Option<seq<MacEntry>>) {
    if reply.None? then None
    else
      var matching := Matching(reply.value, name);
      if |matching| > 1 then None
      else
        var rest := if matching == [] then [] else matching[0].entries;
        if (matching != []) != native.Some? || (native.Some? && |rest| != |native.value|) then None
        else if native.None? then Some([])
        else EntriesUpTo(Sort(rest, BY_ID), native.value, |rest|)
  }

  function Matching(sets: seq<AclSet>, name: string): (r: seq<AclSet>) {
    Filter(sets, (acl: AclSet) => Named(acl, name))
  }

  lemma {:induction false} MatchingStep(sets: seq<AclSet>, name: string, i: nat)
    requires i < |sets|
    ensures Matching(sets[..i + 1], name) == Matching(sets[..i], name) + if Named(sets[i], name) then [sets[i]] else []
    ensures |Matching(sets[..i + 1], name)| <= |Matching(sets, name)|
  {
    hide Named, Filter;
    var matches := (acl: AclSet) => Named(acl, name);
    FilterAppend(sets[..i], [sets[i]], matches);
    FilterOne(sets[i], matches);
    assert sets[..i] + [sets[i]] == sets[..i + 1];
    FilterAppend(sets[..i + 1], sets[i + 1..], matches);
    assert sets[..i + 1] + sets[i + 1..] == sets;
  }

  /** The collection's one set of that identity; two of them are refused. */
  method FindSet(sets: seq<AclSet>, name: string) returns (ok: bool, found: bool, rest: seq<RestEntry>)
    ensures ok <==> |Matching(sets, name)| <= 1
    ensures ok ==>
              && (found <==> Matching(sets, name) != [])
              && rest == if found then Matching(sets, name)[0].entries else []
  {
    hide Matching;
    ok, found, rest := true, false, [];
    assert Matching(sets[..0], name) == [] by { NoneMatching(name); }
    for i := 0 to |sets|
      invariant |Matching(sets[..i], name)| == if found then 1 else 0
      invariant rest == if found then Matching(sets[..i], name)[0].entries else []
    {
      MatchingStep(sets, name, i);
      if sets[i].name != name || Unqualified(sets[i].kind) != "ACL_L2" {
        continue;
      }
      if found {
        return false, true, rest;
      }
      found, rest := true, sets[i].entries;
    }
    assert sets[..|sets|] == sets;
  }

  lemma {:induction false} NoneMatching(name: string)
    ensures Matching([], name) == []
  {
  }

  method MatchEntries(sorted: seq<RestEntry>, native: seq<MacRule>) returns (r: Option<seq<MacEntry>>)
    requires |sorted| == |native|
    ensures r == EntriesUpTo(sorted, native, |sorted|)
  {
    hide EntryAt;
    var entries: seq<MacEntry> := [];
    for i := 0 to |sorted|
      invariant EntriesUpTo(sorted, native, i) == Some(entries)
    {
      var e := EntryAt(sorted, native, i);
      if e.None? {
        StopsShort(sorted, native, i, |sorted|);
        return None;
      }
      entries := entries + [e.value];
    }
    return Some(entries);
  }

  method ReadEntries(reply: Option<seq<AclSet>>, name: string, native: Option<seq<MacRule>>)
    returns (r: Option<seq<MacEntry>>)
    ensures r == Entries(reply, name, native)
  {
    hide EntriesUpTo, Sort, Matching;
    if reply.None? {
      return None;
    }
    var ok, found, rest := FindSet(reply.value, name);
    if !ok || found != native.Some? {
      return None;
    }
    if native.None? {
      return Some([]);
    }
    if |rest| != |native.value| {
      return None;
    }
    r := MatchEntries(Sort(rest, BY_ID), native.value);
  }

  lemma {:induction false} StopsShort(sorted: seq<RestEntry>, native: seq<MacRule>, i: nat, n: nat)
    requires i < n <= |sorted| == |native| && EntryAt(sorted, native, i).None?
    ensures EntriesUpTo(sorted, native, n).None?
  {
    hide EntryAt;
    if n > i + 1 { StopsShort(sorted, native, i, n - 1); }
  }

  function Ids(entries: seq<MacEntry>): (r: seq<Int64>) {
    seq(|entries|, i requires 0 <= i < |entries| => entries[i].id)
  }

  function RulesOf(entries: seq<MacEntry>): (r: seq<MacRule>) {
    seq(|entries|, i requires 0 <= i < |entries| => entries[i].rule)
  }

  /** Strictly ascending IDs within the REST range. */
  ghost predicate Numbered(entries: seq<MacEntry>) {
    && (forall i :: 0 <= i < |entries| ==> 1 <= entries[i].id <= LAST_ID)
    && (forall i, j :: 0 <= i < j < |entries| ==> entries[i].id < entries[j].id)
  }

  lemma {:induction false} ById()
    ensures TotalPreorder(BY_ID)
  {
  }

  /** What matching establishes: the entries carry the native rules in native order, under
      strictly ascending IDs in range. */
  lemma {:induction false} EntriesSound(reply: Option<seq<AclSet>>, name: string, native: Option<seq<MacRule>>)
    requires Entries(reply, name, native).Some?
    ensures var entries := Entries(reply, name, native).value;
            Numbered(entries) && RulesOf(entries) == if native.Some? then native.value else []
  {
    hide Sort, EntryAt, TotalPreorder;
    var entries := Entries(reply, name, native).value;
    if native.Some? {
      var matching := Matching(reply.value, name);
      var sorted := Sort(matching[0].entries, BY_ID);
      ById();
      SortSorted(matching[0].entries, BY_ID);
      StrictlyAscend(sorted, native.value, entries);
    }
  }

  lemma {:induction false} StrictlyAscend(sorted: seq<RestEntry>, native: seq<MacRule>, entries: seq<MacEntry>)
    requires |sorted| == |native| == |entries| && SortedBy(sorted, BY_ID)
    requires forall i :: 0 <= i < |entries| ==> EntryAt(sorted, native, i) == Some(entries[i])
    ensures Numbered(entries) && RulesOf(entries) == native
  {
    hide Decode;
    var n := |entries|;
    forall i | 0 <= i < n
      ensures entries[i].id == sorted[i].id && 1 <= entries[i].id <= LAST_ID && entries[i].rule == native[i]
      ensures i > 0 ==> sorted[i].id != sorted[i - 1].id
    {
      assert EntryAt(sorted, native, i) == Some(entries[i]);
    }
    forall i, j | 0 <= i < j < n ensures entries[i].id < entries[j].id {
      assert BY_ID(sorted[i], sorted[j]);
      if i < j - 1 { assert BY_ID(sorted[i], sorted[j - 1]); }
      assert BY_ID(sorted[j - 1], sorted[j]);
    }
  }

  // ---- target IDs ----

  /** Appending the extra rules after the last entry would leave the ID range. */
  predicate Rekeys(current: seq<MacEntry>, count: nat) {
    current != [] && count - |current| + current[|current| - 1].id > LAST_ID
  }

  function TargetId(current: seq<MacEntry>, count: nat, i: nat): (id: int) {
    if Rekeys(current, count) || current == [] then i + 1
    else if i < |current| then current[i].id
    else current[|current| - 1].id + (i - |current| + 1)
  }

  /** IDs stay in range and strictly ascend, whether positions are reused or renumbered. */
  lemma {:induction false} TargetsAscend(current: seq<MacEntry>, count: nat)
    requires Numbered(current) && count <= LAST_ID
    ensures forall i :: 0 <= i < count ==> 1 <= TargetId(current, count, i) <= LAST_ID
    ensures forall i, j :: 0 <= i < j < count ==> TargetId(current, count, i) < TargetId(current, count, j)
  {
    if current != [] {
      var last := current[|current| - 1];
      assert 1 <= last.id <= LAST_ID;
    }
  }

  /** The extra rules fit after the last entry. */
  ghost predicate Room(current: seq<MacEntry>, count: nat) {
    current == [] || current[|current| - 1].id + count - |current| <= LAST_ID
  }

  /** While there is room, every position keeps the ID it has and extra rules get the next
      ones; otherwise all are numbered from one. */
  ghost predicate Reused(current: seq<MacEntry>, target: seq<MacEntry>) {
    if Room(current, |target|) then
      && (forall i :: 0 <= i < |target| && i < |current| ==> target[i].id == current[i].id)
      && (forall i :: |current| <= i < |target| ==> target[i].id == 1 + if i == 0 then 0 else target[i - 1].id)
    else forall i :: 0 <= i < |target| ==> target[i].id == i + 1
  }

  function Target(current: seq<MacEntry>, rules: seq<MacRule>): (r: seq<MacEntry>)
    requires Numbered(current) && |rules| <= LAST_ID
    ensures Numbered(r) && RulesOf(r) == rules && Reused(current, r)
  {
    TargetsAscend(current, |rules|);
    seq(|rules|, i requires 0 <= i < |rules| => MacEntry(TargetId(current, |rules|, i), rules[i]))
  }

  method Targets(current: seq<MacEntry>, rules: seq<MacRule>) returns (target: seq<MacEntry>)
    requires Numbered(current) && |rules| <= LAST_ID
    ensures target == Target(current, rules)
    ensures RulesOf(target) == rules && Numbered(target) && Reused(current, target)
  {
    var rekey := Rekeys(current, |rules|);
    target := [];
    var last: Int64 := 0;
    TargetsAscend(current, |rules|);
    for i := 0 to |rules|
      invariant |target| == i && forall j :: 0 <= j < i ==>
                target[j] == MacEntry(TargetId(current, |rules|, j), rules[j])
      invariant last == if i == 0 then 0 else TargetId(current, |rules|, i - 1)
    {
      assert 1 <= TargetId(current, |rules|, i) <= LAST_ID;
      assert i > 0 ==> 1 <= TargetId(current, |rules|, i - 1) <= LAST_ID;
      last := last + 1;
      if !rekey && i < |current| {
        last := current[i].id;
      }
      target := target + [MacEntry(last, rules[i])];
    }
  }
}
