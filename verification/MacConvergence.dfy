/** MAC access-list reconciliation on a merging device: PATCH merges entries by ID (section
    4.6.1 of RFC 8040), DELETE removes one (section 4.7), native rules follow ascending IDs,
    an equal rule under a second ID is refused, and so is creating an empty list. */
module MacConvergence {
  import opened Prelude
  import opened Sorting
  import opened MacCodec
  import opened MacEntries
  import opened Updating
  import opened CheckedWrites
  import opened MacReconcile
  import opened MacSafety

  /** A REST entry and the native rule it stands for. */
  datatype Row = Row(entry: RestEntry, rule: MacRule)

  type Rows = map<Int64, Row>

  /** What is up to the device: how it merges into an entry that exists, and the order in
      which it lists a set's entries. */
  datatype Freedom = Freedom(merge: (Row, RestEntry) -> Row, list: seq<RestEntry> -> seq<RestEntry>)

  ghost predicate ListsAll(free: Freedom) { forall s :: multiset(free.list(s)) == multiset(s) }

  datatype MergeState = MergeState(rows: Option<Rows>, others: seq<string>, foreign: seq<AclSet>)

  function Listing(rows: Rows): (r: seq<MacEntry>) {
    var ids := Ascending(rows.Keys);
    seq(|ids|, i requires 0 <= i < |ids| =>
      MacEntry(ids[i], if ids[i] in rows then rows[ids[i]].rule else TEMPORARY.rule))
  }

  function Native(rows: Option<Rows>): (r: Owned) {
    if rows.None? then None else Some(RulesOf(Listing(rows.value)))
  }

  function Entered(rows: Rows): (r: seq<RestEntry>) {
    var ids := Ascending(rows.Keys);
    seq(|ids|, i requires 0 <= i < |ids| => if ids[i] in rows then rows[ids[i]].entry else Encode(TEMPORARY))
  }

  function Collection(free: Freedom, name: string, s: MergeState): (r: seq<AclSet>) {
    if s.rows.None? then s.foreign else [AclSet(name, "ACL_L2", free.list(Entered(s.rows.value)))] + s.foreign
  }

  function PatchOf(entries: seq<RestEntry>): (r: map<Int64, RestEntry>) {
    if entries == [] then map[]
    else PatchOf(entries[..|entries| - 1])[entries[|entries| - 1].id := entries[|entries| - 1]]
  }

  predicate Decodable(entries: seq<RestEntry>) { forall i :: 0 <= i < |entries| ==> Decode(entries[i]).Some? }

  function Overlay(free: Freedom, rows: Rows, patch: map<Int64, RestEntry>): (r: Rows) {
    map k | k in rows.Keys + patch.Keys ::
      if k !in patch then rows[k] else if k in rows then free.merge(rows[k], patch[k])
      else Row(patch[k], if Decode(patch[k]).Some? then Decode(patch[k]).value else TEMPORARY.rule)
  }

  predicate Collides(merged: Rows, patched: set<Int64>) {
    exists k, j :: k in patched && k in merged && j in merged && j != k && merged[j].rule == merged[k].rule
  }

  function MergeSend(free: Freedom, name: string, s: MergeState, request: Request<Content>): (r: (MergeState, Reply)) {
    match request.content
    case Set(acl, entries) =>
      var patch := PatchOf(entries);
      var merged := Overlay(free, if s.rows.Some? then s.rows.value else map[], patch);
      if request.verb != "PATCH" || acl != name || !Decodable(entries) then (s, Refused)
      else if (s.rows.None? && entries == []) || Collides(merged, patch.Keys) then (s, Refused)
      else (s.(rows := Some(merged)), Done)
    case EntryOf(acl, id) =>
      if request.verb != "DELETE" || acl != name then (s, Refused)
      else if s.rows.None? || id !in s.rows.value then (s, Missing)
      else (s.(rows := Some(s.rows.value - {id})), Done)
  }

  function MergeDevice(free: Freedom, name: string): (d: MacDevice<MergeState>) {
    MacDevice((s: MergeState, request) => MergeSend(free, name, s, request),
              (s: MergeState) => (s, Some(View(Native(s.rows), s.others))),
              (s: MergeState) => (s, Some(Collection(free, name, s))))
  }

  // ---- REST and native rules agree ----

  /** The REST entry decodes to the row's rule, up to logging metadata it has lost. */
  predicate Faithful(id: Int64, row: Row) {
    && row.entry.id == id && Decode(row.entry).Some?
    && (if row.entry.log == "" then Decode(row.entry).value.(log := row.rule.log) else Decode(row.entry).value) ==
       row.rule
  }

  predicate Agrees(rows: Rows) { forall k :: k in rows ==> Faithful(k, rows[k]) }

  ghost predicate Holds(rows: Rows, entries: seq<MacEntry>) {
    Agrees(rows) && Listing(rows) == entries
  }

  lemma {:induction false} ListingNumbered(rows: Rows)
    requires Agrees(rows)
    ensures Numbered(Listing(rows)) && |Listing(rows)| == |Entered(rows)|
    ensures forall e :: e in Listing(rows) <==> e.id in rows && rows[e.id].rule == e.rule
    ensures forall i :: 0 <= i < |Listing(rows)| ==>
            Listing(rows)[i].id in rows && Entered(rows)[i] == rows[Listing(rows)[i].id].entry
  {
    hide Agrees, Listing, Entered, Numbered;
    ListingAscends(rows);
    forall e ensures e in Listing(rows) <==> e.id in rows && rows[e.id].rule == e.rule { Listed(rows, e); }
    EnteredLikewise(rows);
  }

  lemma {:induction false} EnteredLikewise(rows: Rows)
    ensures |Listing(rows)| == |Entered(rows)|
    ensures forall i :: 0 <= i < |Listing(rows)| ==>
            Listing(rows)[i].id in rows && Entered(rows)[i] == rows[Listing(rows)[i].id].entry
  {
    hide Ascends;
    var ids := Ascending(rows.Keys);
    forall i | 0 <= i < |ids| ensures ids[i] in rows {
      assert ids[i] in ids;
    }
  }

  lemma {:induction false} ListingAscends(rows: Rows)
    requires Agrees(rows)
    ensures Numbered(Listing(rows))
  {
    hide Ascends, Agrees;
    var ids := Ascending(rows.Keys);
    forall i | 0 <= i < |ids| ensures 1 <= ids[i] <= LAST_ID {
      assert ids[i] in ids;
      InRange(rows, ids[i]);
    }
    forall i, j | 0 <= i < j < |ids| ensures ids[i] < ids[j] { AscendsAt(ids, i, j); }
  }

  lemma {:induction false} InRange(rows: Rows, k: Int64)
    requires Agrees(rows) && k in rows
    ensures 1 <= k <= LAST_ID
  {
    hide Decode;
    assert Faithful(k, rows[k]);
  }

  lemma {:induction false} Listed(rows: Rows, e: MacEntry)
    ensures e in Listing(rows) <==> e.id in rows && rows[e.id].rule == e.rule
  {
    hide Ascends;
    var ids := Ascending(rows.Keys);
    if e in Listing(rows) {
      var i: nat :| i < |ids| && Listing(rows)[i] == e;
      assert ids[i] in ids;
    }
    if e.id in rows && rows[e.id].rule == e.rule {
      assert e.id in ids;
      var i: nat :| i < |ids| && ids[i] == e.id;
      assert Listing(rows)[i] == e;
    }
  }

  lemma {:induction false} AscendsAt(ids: seq<Int64>, i: nat, j: nat)
    requires Ascends(ids) && i < j < |ids|
    ensures ids[i] < ids[j]
  {
  }

  /** A listing is determined by its members. */
  lemma {:induction false} ListedAs(rows: Rows, entries: seq<MacEntry>)
    requires Agrees(rows) && Numbered(entries)
    requires forall e :: e in entries <==> e.id in rows && rows[e.id].rule == e.rule
    ensures Holds(rows, entries)
  {
    hide Agrees, Listing, Numbered;
    ListingNumbered(rows);
    EntriesUnique(Listing(rows), entries);
  }

  lemma {:induction false} OneMatching(name: string, entries: seq<RestEntry>, foreign: seq<AclSet>)
    requires Matching(foreign, name) == []
    ensures Matching([AclSet(name, "ACL_L2", entries)] + foreign, name) == [AclSet(name, "ACL_L2", entries)]
  {
    var acl := AclSet(name, "ACL_L2", entries);
    assert Named(acl, name);
    assert ([acl] + foreign)[1..] == foreign;
  }

  /** Every row's entry carries the ID it is listed under. */
  predicate Keyed(rows: Rows) { forall k :: k in rows ==> rows[k].entry.id == k }

  lemma {:induction false} AgreesKeyed(rows: Rows)
    requires Agrees(rows)
    ensures Keyed(rows)
  {
    hide Decode;
  }

  lemma {:induction false} KeyedEntered(rows: Rows)
    requires Keyed(rows)
    ensures |Listing(rows)| == |Entered(rows)|
    ensures forall i :: 0 <= i < |Entered(rows)| ==>
            Listing(rows)[i].id in rows && Entered(rows)[i].id == Listing(rows)[i].id
    ensures forall i, j :: 0 <= i < j < |Entered(rows)| ==> Entered(rows)[i].id < Entered(rows)[j].id
  {
    hide Ascends;
    EnteredLikewise(rows);
    var ids := Ascending(rows.Keys);
    forall i, j | 0 <= i < j < |ids| ensures ids[i] < ids[j] { AscendsAt(ids, i, j); }
  }

  /** Matching looks at the entries in the order of their IDs, however they are listed. */
  lemma {:induction false} ReadInOrder(free: Freedom, rows: Rows)
    requires ListsAll(free) && Keyed(rows)
    ensures Sort(free.list(Entered(rows)), BY_ID) == Entered(rows) && |free.list(Entered(rows))| == |Listing(rows)|
  {
    hide Listing, Entered, Sort;
    var rest := Entered(rows);
    KeyedEntered(rows);
    ById();
    SortSorted(free.list(rest), BY_ID);
    StrictlySortedUnique(rest, Sort(free.list(rest), BY_ID), BY_ID);
    assert |multiset(free.list(rest))| == |multiset(rest)|;
  }

  /** Matching the collection to native rules succeeds exactly while they agree, and then
      finds exactly the entries. */
  lemma {:induction false} Identified(free: Freedom, name: string, s: MergeState)
    requires ListsAll(free) && Matching(s.foreign, name) == [] && (s.rows.Some? ==> Keyed(s.rows.value))
    ensures Entries(Some(Collection(free, name, s)), name, Native(s.rows)) ==
            if s.rows.None? then Some([]) else if Agrees(s.rows.value) then Some(Listing(s.rows.value)) else None
  {
    hide Listing, Entered, Matching, Sort, EntriesUpTo, Agrees, Keyed;
    if s.rows.Some? {
      var rows := s.rows.value;
      OneMatching(name, free.list(Entered(rows)), s.foreign);
      ReadInOrder(free, rows);
      MatchesWhileAgreeing(rows);
    }
  }

  lemma {:induction false} MatchesWhileAgreeing(rows: Rows)
    requires Keyed(rows) && |Entered(rows)| == |Listing(rows)|
    ensures EntriesUpTo(Entered(rows), RulesOf(Listing(rows)), |Listing(rows)|) ==
            if Agrees(rows) then Some(Listing(rows)) else None
  {
    hide Listing, Entered, Agrees, EntriesUpTo;
    MatchUpTo(rows, |Listing(rows)|);
    AgreeEverywhere(rows);
    assert Listing(rows)[..|Listing(rows)|] == Listing(rows);
  }

  ghost predicate AgreeUpTo(rows: Rows, n: nat)
    requires n <= |Listing(rows)|
  {
    forall i :: 0 <= i < n ==> FaithfulAt(rows, i)
  }

  ghost predicate FaithfulAt(rows: Rows, i: nat)
    requires i < |Listing(rows)|
  {
    var k := Listing(rows)[i].id; k in rows && Faithful(k, rows[k])
  }

  lemma {:induction false} AgreeEverywhere(rows: Rows)
    ensures AgreeUpTo(rows, |Listing(rows)|) <==> Agrees(rows)
  {
    hide Ascends, Faithful;
    var ids := Ascending(rows.Keys);
    if Agrees(rows) {
      forall i | 0 <= i < |ids| ensures FaithfulAt(rows, i) { assert ids[i] in ids; }
    }
    if AgreeUpTo(rows, |ids|) {
      forall k | k in rows ensures Faithful(k, rows[k]) {
        assert k in ids;
        var i: nat :| i < |ids| && ids[i] == k;
        assert FaithfulAt(rows, i);
      }
    }
  }

  lemma {:induction false} MatchUpTo(rows: Rows, n: nat)
    requires Keyed(rows) && n <= |Entered(rows)| == |Listing(rows)|
    ensures EntriesUpTo(Entered(rows), RulesOf(Listing(rows)), n) ==
            if AgreeUpTo(rows, n) then Some(Listing(rows)[..n]) else None
  {
    hide Listing, Entered, EntryAt, Keyed, FaithfulAt;
    if n > 0 {
      MatchUpTo(rows, n - 1);
      MatchAt(rows, n - 1);
      assert Listing(rows)[..n] == Listing(rows)[..n - 1] + [Listing(rows)[n - 1]];
    }
  }

  lemma {:induction false} MatchAt(rows: Rows, i: nat)
    requires Keyed(rows) && i < |Entered(rows)| == |Listing(rows)|
    ensures EntryAt(Entered(rows), RulesOf(Listing(rows)), i) ==
            if FaithfulAt(rows, i) then Some(Listing(rows)[i]) else None
  {
    hide Listing, Entered, Decode;
    KeyedEntered(rows);
    EnteredLikewise(rows);
    var e := Listing(rows)[i];
    assert e in Listing(rows);
    Listed(rows, e);
  }

  // ---- each kind of write ----

  lemma {:induction false} RemovedNumbered(entries: seq<MacEntry>, i: nat)
    requires Numbered(entries) && i < |entries|
    ensures Numbered(RemoveAt(entries, i))
  {
  }

  lemma {:induction false} Removed(entries: seq<MacEntry>, i: nat, e: MacEntry)
    requires Numbered(entries) && i < |entries|
    ensures e in RemoveAt(entries, i) <==> e in entries && e.id != entries[i].id
  {
    var rest := RemoveAt(entries, i);
    if e in entries && e.id != entries[i].id {
      var j: nat :| j < |entries| && entries[j] == e;
      assert rest[if j < i then j else j - 1] == e;
    }
    if e in rest {
      var j: nat :| j < |rest| && rest[j] == e;
      var k := if j < i then j else j + 1;
      assert entries[k] == e;
      assert if k < i then entries[k].id < entries[i].id else entries[i].id < entries[k].id;
    }
  }

  lemma {:induction false} HoldsRemoved(rows: Rows, entries: seq<MacEntry>, i: nat)
    requires Holds(rows, entries) && i < |entries|
    ensures entries[i].id in rows && Holds(rows - {entries[i].id}, RemoveAt(entries, i))
  {
    hide Listing, Faithful, Numbered;
    ListingNumbered(rows);
    assert entries[i] in entries;
    forall e { Removed(entries, i, e); }
    RemovedNumbered(entries, i);
    ListedAs(rows - {entries[i].id}, RemoveAt(entries, i));
  }

  lemma {:induction false} ByIdStep(entries: seq<MacEntry>, e: MacEntry)
    ensures PatchOf(Encoded(entries + [e])) == PatchOf(Encoded(entries))[e.id := Encode(e)]
    ensures PatchOf(Encoded([])) == map[]
  {
    EncodedId(e);
    hide Encode;
    assert Encoded(entries + [e])[..|entries|] == Encoded(entries);
  }

  /** Some entry has the ID. */
  ghost predicate Names(entries: seq<MacEntry>, k: Int64) { exists i :: 0 <= i < |entries| && entries[i].id == k }

  /** The entry of that ID. */
  ghost function EntryNamed(entries: seq<MacEntry>, k: Int64): (e: MacEntry)
    requires Names(entries, k)
    ensures e in entries && e.id == k
  {
    var i :| 0 <= i < |entries| && entries[i].id == k;
    entries[i]
  }

  lemma {:induction false} FrontNumbered(entries: seq<MacEntry>)
    requires Numbered(entries) && entries != []
    ensures Numbered(entries[..|entries| - 1])
  {
  }

  /** The patch holds exactly the entries' encodings, each under its ID. */
  lemma {:induction false} ByIdAt(entries: seq<MacEntry>, k: Int64)
    requires Numbered(entries)
    ensures var patch := PatchOf(Encoded(entries));
            && (k in patch <==> Names(entries, k))
            && (k in patch ==> patch[k] == Encode(EntryNamed(entries, k)))
  {
    hide Encode, Encoded, PatchOf, Names, Numbered;
    if entries == [] {
      ByIdStep([], TEMPORARY);
      NamesStep([], TEMPORARY, k);
    } else {
      var n := |entries| - 1;
      var front, last := entries[..n], entries[n];
      assert front + [last] == entries;
      FrontNumbered(entries);
      ByIdAt(front, k);
      ByIdStep(front, last);
      NamesStep(front, last, k);
      if last.id == k {
        SameId(entries, last, EntryNamed(entries, k));
      } else if Names(front, k) {
        SameId(entries, EntryNamed(front, k), EntryNamed(entries, k));
      }
    }
  }

  lemma {:induction false} NamesStep(entries: seq<MacEntry>, e: MacEntry, k: Int64)
    ensures Names(entries + [e], k) <==> Names(entries, k) || e.id == k
    ensures !Names([], k)
  {
    var all := entries + [e];
    if Names(entries, k) {
      var i :| 0 <= i < |entries| && entries[i].id == k;
      assert all[i].id == k;
    }
    assert all[|entries|].id == e.id;
  }

  lemma {:induction false} EncodedId(e: MacEntry)
    ensures Encode(e).id == e.id
  {
  }

  /** Entries that are known to the target, and their encodings at IDs that are free. */
  ghost predicate Fits(rows: Rows, kept: seq<MacEntry>, target: seq<MacEntry>) {
    && Holds(rows, kept) && Numbered(target) && ValidRules(RulesOf(target))
    && (forall e :: e in kept ==> e in target)
  }

  lemma {:induction false} SameId(target: seq<MacEntry>, e: MacEntry, f: MacEntry)
    requires Numbered(target) && e in target && f in target && e.id == f.id
    ensures e == f
  {
    var i: nat :| i < |target| && target[i] == e;
    var j: nat :| j < |target| && target[j] == f;
    assert i < j ==> target[i].id < target[j].id;
  }

  lemma {:induction false} LegalEntry(target: seq<MacEntry>, e: MacEntry)
    requires Numbered(target) && ValidRules(RulesOf(target)) && e in target
    ensures LegalRule(e.rule) && 1 <= e.id <= LAST_ID
  {
    hide LegalRule;
    var i: nat :| i < |target| && target[i] == e;
    assert RulesOf(target)[i] == e.rule;
  }

  /** What the merged rows hold under one ID. */
  lemma {:induction false} MergedRow(free: Freedom, rows: Rows, kept: seq<MacEntry>, target: seq<MacEntry>, k: Int64)
    requires Fits(rows, kept, target)
    ensures var patch := PatchOf(Encoded(Additions(kept, target)));
            var merged := Overlay(free, rows, patch);
            && (k in merged ==> Faithful(k, merged[k]) && MacEntry(k, merged[k].rule) in target)
            && (k in merged && MacEntry(k, merged[k].rule) !in kept ==> k in patch && k !in rows)
  {
    hide Numbered, ValidRules, Listing, Encode, Decode, Agrees, Encoded, PatchOf, Additions, Faithful;
    var patch := PatchOf(Encoded(Additions(kept, target)));
    var merged := Overlay(free, rows, patch);
    ListingNumbered(rows);
    PatchedRow(rows, kept, target, k);
    if k !in patch && k in rows {
      AgreesAt(rows, k);
      assert MacEntry(k, rows[k].rule) in kept;
    }
  }

  /** A patched ID is free, and its encoding decodes to the target's rule. */
  lemma {:induction false} PatchedRow(rows: Rows, kept: seq<MacEntry>, target: seq<MacEntry>, k: Int64)
    requires Fits(rows, kept, target)
    ensures var patch := PatchOf(Encoded(Additions(kept, target)));
            k in patch ==>
              && k !in rows && Decode(patch[k]).Some? && MacEntry(k, Decode(patch[k]).value) in target
              && Faithful(k, Row(patch[k], Decode(patch[k]).value))
  {
    hide Numbered, ValidRules, Listing, Encode, Decode, LegalRule, Agrees, Encoded, PatchOf, Names;
    var additions := Additions(kept, target);
    var patch := PatchOf(Encoded(additions));
    FilterNumbered(target, (e: MacEntry) => e !in kept);
    ByIdAt(additions, k);
    ListingNumbered(rows);
    if k in patch {
      var e := EntryNamed(additions, k);
      LegalEntry(target, e);
      CodecRoundTrip(e);
      EncodedId(e);
      if k in rows {
        SameId(target, e, MacEntry(k, rows[k].rule));
      }
    }
  }

  lemma {:induction false} AgreesAt(rows: Rows, k: Int64)
    requires Agrees(rows) && k in rows
    ensures Faithful(k, rows[k])
  {
    hide Faithful;
  }

  lemma {:induction false} NamedAt(entries: seq<MacEntry>, i: nat)
    requires i < |entries|
    ensures Names(entries, entries[i].id)
  {
  }

  lemma {:induction false} TargetMerged(free: Freedom, rows: Rows, kept: seq<MacEntry>, target: seq<MacEntry>,
        e: MacEntry)
    requires Fits(rows, kept, target) && e in target
    ensures var merged := Overlay(free, rows, PatchOf(Encoded(Additions(kept, target))));
            e.id in merged && merged[e.id].rule == e.rule
  {
    hide Numbered, ValidRules, Listing, Encode, Decode, Agrees, Encoded, PatchOf, Faithful, Names;
    var additions := Additions(kept, target);
    var merged := Overlay(free, rows, PatchOf(Encoded(additions)));
    if e in kept {
      ListingNumbered(rows);
    } else {
      FilterNumbered(target, (x: MacEntry) => x !in kept);
      ByIdAt(additions, e.id);
      assert e in additions;
      var i: nat :| i < |additions| && additions[i] == e;
      assert additions[i].id == e.id;
      NamedAt(additions, i);
    }
    MergedRow(free, rows, kept, target, e.id);
    SameId(target, e, MacEntry(e.id, merged[e.id].rule));
  }

  lemma {:induction false} PatchHolds(free: Freedom, rows: Rows, kept: seq<MacEntry>, target: seq<MacEntry>)
    requires Fits(rows, kept, target)
    ensures var patch := PatchOf(Encoded(Additions(kept, target)));
            var merged := Overlay(free, rows, patch);
            Holds(merged, target) && !Collides(merged, patch.Keys)
  {
    hide Numbered, ValidRules, Listing, Encode, Decode, Encoded, PatchOf, Faithful, Additions, Overlay, Holds;
    var patch := PatchOf(Encoded(Additions(kept, target)));
    var merged := Overlay(free, rows, patch);
    forall k: Int64 { MergedRow(free, rows, kept, target, k); }
    forall e: MacEntry ensures e in target <==> e.id in merged && merged[e.id].rule == e.rule {
      if e in target { TargetMerged(free, rows, kept, target, e); }
      MergedRow(free, rows, kept, target, e.id);
    }
    ListedAs(merged, target);
    forall k, j | k in merged && j in merged && merged[j].rule == merged[k].rule ensures j == k {
      OneRule(target, MacEntry(k, merged[k].rule), MacEntry(j, merged[j].rule));
    }
  }

  lemma {:induction false} OneRule(target: seq<MacEntry>, e: MacEntry, f: MacEntry)
    requires ValidRules(RulesOf(target)) && e in target && f in target && e.rule == f.rule
    ensures e == f
  {
    hide LegalRule;
    var i: nat :| i < |target| && target[i] == e;
    var j: nat :| j < |target| && target[j] == f;
    assert RulesOf(target)[i] == RulesOf(target)[j];
  }

  lemma {:induction false} AdditionsDecodable(kept: seq<MacEntry>, target: seq<MacEntry>)
    requires Numbered(target) && ValidRules(RulesOf(target))
    ensures Decodable(Encoded(Additions(kept, target)))
  {
    hide Numbered, ValidRules, Encode, Decode, LegalRule;
    var additions := Additions(kept, target);
    forall i | 0 <= i < |additions| ensures Decode(Encoded(additions)[i]).Some? {
      assert additions[i] in additions;
      LegalEntry(target, additions[i]);
      CodecRoundTrip(additions[i]);
    }
  }

  // ---- whole plans ----

  /** On track, with the device holding the rows and all else as it was. */
  ghost predicate Tracking(p: Progress<MergeState, Content, Owned>, rows: Option<Rows>, others: seq<string>,
        foreign: seq<AclSet>) {
    OnTrack(p, MergeState(rows, others, foreign), Native(rows))
  }

  function KnownOf(rows: Option<Rows>): (k: Known) {
    Known(Native(rows), if rows.Some? then Listing(rows.value) else [])
  }

  lemma {:induction false} StaysTracking(free: Freedom, name: string, p: Progress<MergeState, Content, Owned>,
        s: MergeState, rows: Option<Rows>, step: MacStep)
    requires ListsAll(free) && Tracking(p, s.rows, s.others, s.foreign) && Matching(s.foreign, name) == []
             && (s.rows.Some? ==> Agrees(s.rows.value))
    requires step.guard == Some(KnownOf(s.rows)) && Mutates(step.request.verb) && step.expected == Native(rows)
    requires MergeSend(free, name, s, step.request) == (s.(rows := rows), Done)
    ensures Tracking(Wrote(Lift(MergeDevice(free, name), name), p, step, s.others), rows, s.others, s.foreign)
  {
    hide MergeSend, Wrote, OnTrack, Native, Listing, Entries, Agrees, Matching;
    if s.rows.Some? { AgreesKeyed(s.rows.value); }
    Identified(free, name, s);
    StaysOnTrack(Lift(MergeDevice(free, name), name), p, s, Native(s.rows), s.(rows := rows), step, s.others);
  }

  lemma {:induction false} DeletesTrack(free: Freedom, name: string, p: Progress<MergeState, Content, Owned>,
        s: MergeState, base: seq<MacEntry>, target: seq<MacEntry>, i: nat)
    returns (rows: Rows)
    requires Tracking(p, s.rows, s.others, s.foreign) && Matching(s.foreign, name) == [] && ListsAll(free)
    requires s.rows.Some? && Holds(s.rows.value, base) && i <= |base|
    ensures Tracking(Run(Lift(MergeDevice(free, name), name), p, DeleteSteps(name, base, target, i), s.others),
            Some(rows), s.others, s.foreign)
    ensures Holds(rows, Left(base, target, i))
    decreases |base| - i
  {
    hide Tracking, Left, DeleteSteps, Listing, Lift, Agrees, Run, Wrote, Matching;
    var d := Lift(MergeDevice(free, name), name);
    if i == |base| {
      NoDeletes(name, base, target);
      LeftAll(base, target);
      RunNothing(d, p, s.others);
      return s.rows.value;
    }
    var before := DeletesTrack(free, name, p, s, base, target, i + 1);
    LeftStep(base, target, i);
    DeletesStep(name, base, target, i);
    if base[i] in target {
      return before;
    }
    rows := DeleteTracks(free, name, Run(d, p, DeleteSteps(name, base, target, i + 1), s.others),
      s.(rows := Some(before)), base, target, i);
    RunExtend(d, p, DeleteSteps(name, base, target, i + 1), DeleteStep(name, base, target, i), s.others);
  }

  lemma {:induction false} DeleteTracks(free: Freedom, name: string, p: Progress<MergeState, Content, Owned>,
        s: MergeState, base: seq<MacEntry>, target: seq<MacEntry>, i: nat)
    returns (rows: Rows)
    requires Tracking(p, s.rows, s.others, s.foreign) && Matching(s.foreign, name) == [] && ListsAll(free)
    requires i < |base| && base[i] !in target && s.rows.Some? && Holds(s.rows.value, Left(base, target, i + 1))
    ensures Tracking(Wrote(Lift(MergeDevice(free, name), name), p, DeleteStep(name, base, target, i), s.others),
            Some(rows), s.others, s.foreign)
    ensures Holds(rows, Left(base, target, i))
  {
    hide Tracking, Left, Listing, Lift, Agrees, Wrote, Matching;
    LeftStep(base, target, i);
    HoldsRemoved(s.rows.value, Left(base, target, i + 1), i);
    rows := s.rows.value - {base[i].id};
    StaysTracking(free, name, p, s, Some(rows), DeleteStep(name, base, target, i));
  }

  lemma {:induction false} AllAdded(target: seq<MacEntry>)
    ensures Additions([], target) == target
  {
    if target != [] {
      AllAdded(target[1..]);
      assert target == [target[0]] + target[1..];
    }
  }

  lemma {:induction false} EmptyHolds()
    ensures Holds(map[], [])
  {
  }

  lemma {:induction false} InitialLegal(target: seq<MacEntry>)
    requires Numbered(target) && ValidRules(RulesOf(target))
    ensures Numbered(Initial(target)) && ValidRules(RulesOf(Initial(target))) && Initial(target) != []
  {
  }

  lemma {:induction false} CreateTracks(free: Freedom, name: string, p: Progress<MergeState, Content, Owned>,
        s: MergeState, target: seq<MacEntry>)
    returns (rows: Rows)
    requires Tracking(p, s.rows, s.others, s.foreign) && Matching(s.foreign, name) == [] && ListsAll(free)
    requires s.rows.None? && Numbered(target) && ValidRules(RulesOf(target))
    ensures Tracking(Run(Lift(MergeDevice(free, name), name), p, CreateSteps(name, None, [], target), s.others),
            Some(rows), s.others, s.foreign)
    ensures Holds(rows, Initial(target))
  {
    hide Tracking, Listing, Lift, Agrees, Run, Wrote, Matching, Numbered, ValidRules, Additions, Encoded, Overlay,
      PatchOf, Collides, Decodable;
    var initial := Initial(target);
    InitialLegal(target);
    AllAdded(initial);
    EmptyHolds();
    PatchHolds(free, map[], [], initial);
    AdditionsDecodable([], initial);
    rows := Overlay(free, map[], PatchOf(Encoded(initial)));
    var step := Step(Some(Known(None, [])), Request("PATCH", Set(name, Encoded(initial))), false,
      Some(RulesOf(initial)));
    assert Encoded(initial) != [] by { EncodedSize(initial); }
    StaysTracking(free, name, p, s, Some(rows), step);
    RunOne(Lift(MergeDevice(free, name), name), p, step, s.others);
  }

  lemma {:induction false} EncodedSize(entries: seq<MacEntry>)
    ensures |Encoded(entries)| == |entries|
  {
  }

  lemma {:induction false} AddTracks(free: Freedom, name: string, p: Progress<MergeState, Content, Owned>,
        s: MergeState, kept: seq<MacEntry>, target: seq<MacEntry>)
    returns (rows: Rows)
    requires Tracking(p, s.rows, s.others, s.foreign) && Matching(s.foreign, name) == [] && ListsAll(free)
    requires s.rows.Some? && Fits(s.rows.value, kept, target)
    ensures Tracking(Run(Lift(MergeDevice(free, name), name), p, AddSteps(name, kept, target), s.others), Some(rows),
            s.others, s.foreign)
    ensures Holds(rows, target)
  {
    hide Tracking, Listing, Lift, Agrees, Run, Wrote, Matching, Numbered, ValidRules, Additions, Encoded, Overlay,
      PatchOf, Collides, Decodable;
    var additions := Additions(kept, target);
    PatchHolds(free, s.rows.value, kept, target);
    AdditionsDecodable(kept, target);
    rows := Overlay(free, s.rows.value, PatchOf(Encoded(additions)));
    if additions == [] {
      RunNothing(Lift(MergeDevice(free, name), name), p, s.others);
      NothingPatched(free, s.rows.value);
    } else {
      var step := Step(Some(Knowing(kept)), Request("PATCH", Set(name, Encoded(additions))), false,
        Some(RulesOf(target)));
      StaysTracking(free, name, p, s, Some(rows), step);
      RunOne(Lift(MergeDevice(free, name), name), p, step, s.others);
    }
  }

  lemma {:induction false} NothingPatched(free: Freedom, rows: Rows)
    ensures Overlay(free, rows, PatchOf(Encoded([]))) == rows
  {
  }

  lemma {:induction false} KeptWanted(base: seq<MacEntry>, target: seq<MacEntry>)
    ensures forall e :: e in Left(base, target, 0) ==> e in target
  {
  }

  lemma {:induction false} PlanTracks(free: Freedom, name: string, p: Progress<MergeState, Content, Owned>,
        s: MergeState, entries: seq<MacEntry>, target: seq<MacEntry>)
    returns (rows: Rows)
    requires Tracking(p, s.rows, s.others, s.foreign) && Matching(s.foreign, name) == [] && ListsAll(free)
    requires Numbered(target) && ValidRules(RulesOf(target))
    requires if s.rows.Some? then Holds(s.rows.value, entries) else entries == []
    ensures Tracking(Run(Lift(MergeDevice(free, name), name), p, Plan(name, Native(s.rows), entries, target),
            s.others), Some(rows), s.others, s.foreign)
    ensures Holds(rows, target)
  {
    hide Tracking, Listing, Lift, Agrees, Run, Matching, Numbered, ValidRules, Left, DeleteSteps, AddSteps,
      CreateSteps, Holds;
    var d := Lift(MergeDevice(free, name), name);
    var start := Native(s.rows);
    var base := Base(start, entries, target);
    var create := CreateSteps(name, start, entries, target);
    var deletes := DeleteSteps(name, base, target, 0);
    var created := s;
    if s.rows.None? {
      rows := CreateTracks(free, name, p, s, target);
      created := s.(rows := Some(rows));
    } else {
      NoCreate(name, start, entries, target);
      RunNothing(d, p, s.others);
    }
    var p1 := Run(d, p, create, s.others);
    rows := DeletesTrack(free, name, p1, created, base, target, 0);
    RunJoin(d, p, create, deletes, s.others);
    KeptWanted(base, target);
    var left := Left(base, target, 0);
    rows := AddTracks(free, name, Run(d, p, create + deletes, s.others), s.(rows := Some(rows)), left, target);
    RunJoin(d, p, create + deletes, AddSteps(name, left, target), s.others);
  }

  lemma {:induction false} NoCreate(name: string, start: Owned, entries: seq<MacEntry>, target: seq<MacEntry>)
    requires start.Some?
    ensures CreateSteps(name, start, entries, target) == []
  {
  }

  /** The entries a state's REST collection and native rules agree on. */
  function Standing(s: MergeState): (r: seq<MacEntry>) {
    if s.rows.Some? then Listing(s.rows.value) else []
  }

  /** From every state whose REST and native rules agree, absent and empty lists included,
      nothing sent is refused or missing, and the device ends with exactly the desired
      rules in order, under the target's IDs, with everything else as it was. */
  lemma {:induction false} Converges(free: Freedom, name: string, s: MergeState, desired: seq<MacRule>)
    requires ValidRules(desired) && |desired| <= LAST_ID
    requires ListsAll(free) && Matching(s.foreign, name) == [] && (s.rows.Some? ==> Agrees(s.rows.value))
    ensures Numbered(Standing(s))
    ensures var r := Applied(MergeDevice(free, name), s, name, desired);
            var end := r.session.state;
            && r.failure.None? && AllDone(r.session.sent) && r.current == Some(desired)
            && end.others == s.others && end.foreign == s.foreign
            && end.rows.Some? && RulesOf(Listing(end.rows.value)) == desired
            && Listing(end.rows.value) ==
               (if Native(s.rows) == Some(desired) then Standing(s) else Target(Standing(s), desired))
  {
    hide Listing, Lift, Agrees, Run, Matching, Numbered, ValidRules, Target, Plan, Native, Applied;
    if s.rows.Some? { ListingNumbered(s.rows.value); } else { NothingNumbered(); }
    AppliedRuns(free, name, s, desired);
    NativeRules(s);
    if Native(s.rows) != Some(desired) {
      var target := Target(Standing(s), desired);
      var p := Progress(Fresh<MergeState, Content>(s), Native(s.rows), [], None);
      assert Tracking(p, s.rows, s.others, s.foreign);
      var rows := PlanTracks(free, name, p, s, Standing(s), target);
      NativeRules(s.(rows := Some(rows)));
    }
  }

  /** From every start whose entries carry the IDs they are listed under: reconciliation
      succeeds exactly when native rules are the desired ones already, where it stops before
      reading REST, or REST and native rules agree; otherwise nothing at all is sent. */
  lemma {:induction false} SucceedsExactly(free: Freedom, name: string, s: MergeState, desired: seq<MacRule>)
    requires ValidRules(desired) && |desired| <= LAST_ID
    requires ListsAll(free) && Matching(s.foreign, name) == [] && (s.rows.Some? ==> Keyed(s.rows.value))
    ensures var r := Applied(MergeDevice(free, name), s, name, desired);
            && (r.failure.None? <==> Native(s.rows) == Some(desired) || (s.rows.Some? ==> Agrees(s.rows.value)))
            && (r.failure.Some? || Native(s.rows) == Some(desired) ==> r.session.sent == [] && r.session.state == s)
            && (r.failure.Some? ==> r.failure == Some(Stale))
  {
    hide Listing, Lift, Agrees, Keyed, Run, Matching, Numbered, ValidRules, Entries, Target, Plan, Native;
    LiftShows(free, name, s);
    if s.rows.None? || Agrees(s.rows.value) {
      Converges(free, name, s, desired);
    } else {
      Identified(free, name, s);
    }
  }

  lemma {:induction false} AppliedRuns(free: Freedom, name: string, s: MergeState, desired: seq<MacRule>)
    requires |desired| <= LAST_ID && Numbered(Standing(s))
    requires ListsAll(free) && Matching(s.foreign, name) == [] && (s.rows.Some? ==> Agrees(s.rows.value))
    ensures var p := Progress(Fresh<MergeState, Content>(s), Native(s.rows), [], None);
            Applied(MergeDevice(free, name), s, name, desired) ==
            if Native(s.rows) == Some(desired) then p
            else Run(Lift(MergeDevice(free, name), name), p,
              Plan(name, Native(s.rows), Standing(s), Target(Standing(s), desired)), s.others)
  {
    hide Listing, Lift, Agrees, Run, Matching, Numbered, Entries, Target, Plan, Native;
    if s.rows.Some? { AgreesKeyed(s.rows.value); }
    Identified(free, name, s);
    LiftShows(free, name, s);
  }

  lemma {:induction false} NothingNumbered()
    ensures Numbered([])
  {
  }

  lemma {:induction false} NativeRules(s: MergeState)
    ensures Native(s.rows) == if s.rows.Some? then Some(RulesOf(Standing(s))) else None
  {
  }

  lemma {:induction false} LiftShows(free: Freedom, name: string, s: MergeState)
    ensures AfterLook(Lift(MergeDevice(free, name), name), Fresh<MergeState, Content>(s)) ==
            (Fresh(s), Some(View(Native(s.rows), s.others)))
  {
  }
}
