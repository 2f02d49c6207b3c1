/** Storm-control reconciliation on a caching device: an unchanged cache entry suppresses
    the native change, an entry missing from the cache cannot be deleted, and a unit that
    other classes do not share is refused. */
module StormCache {
  import opened Prelude
  import opened Updating
  import opened CheckedWrites
  import opened StormControl

  datatype CacheState = CacheState(policy: Policy, cached: map<string, Limit>, others: seq<string>)

  function Unit(kbps: bool): (u: string) { if kbps then KBPS else PPS }

  function Under(unit: string, limits: map<string, Int64>): (p: Policy) {
    Policy(if limits == map[] then "" else unit, limits)
  }

  predicate Conflicts(p: Policy, rates: map<string, Limit>) {
    exists c, o :: c in rates && o in p.limits && o != c && rates[c].kbps != (p.unit == KBPS)
  }

  /** The rates the cache does not already hold. */
  function Unseen(cached: map<string, Limit>, rates: map<string, Limit>): (r: map<string, Int64>) {
    map c | c in rates && !(c in cached && cached[c] == rates[c]) :: rates[c].rate
  }

  function SharedUnit(rates: map<string, Limit>): (u: string) { Unit(exists c :: c in rates && rates[c].kbps) }

  function CacheSend(s: CacheState, request: Request<Content>): (r: (CacheState, Reply)) {
    match request.content
    case Rates(rates) =>
      if request.verb != "PATCH" || Conflicts(s.policy, rates) then (s, Refused)
      else
        var unseen := Unseen(s.cached, rates);
        (CacheState(Under(if unseen == map[] then s.policy.unit else SharedUnit(rates), s.policy.limits + unseen),
          s.cached + rates, s.others), Done)
    case Whole =>
      if request.verb != "DELETE" then (s, Refused)
      else (CacheState(Under(s.policy.unit, s.policy.limits - s.cached.Keys), map[], s.others), Done)
    case Class(c) =>
      if request.verb != "DELETE" then (s, Refused)
      else if c !in s.cached then (s, Missing)
      else (CacheState(Minus(s.policy, c), s.cached - {c}, s.others), Done)
  }

  function CacheDevice(): (d: StormDevice<CacheState>) {
    Device((s: CacheState, request) => CacheSend(s, request),
           (s: CacheState) => (s, Some(View(Native(s.policy, false), s.others))),
           (s: CacheState, g: ()) => (s, true))
  }

  /** A native policy: known classes at positive rates under one unit. */
  predicate Proper(p: Policy) {
    && (if p.limits == map[] then p.unit == "" else p.unit == PPS || p.unit == KBPS)
    && forall c :: c in p.limits ==> c in CLASSES && p.limits[c] >= 1
  }

  lemma {:induction false} ValidProper(p: Policy)
    requires Valid(p)
    ensures Proper(p)
  {
  }

  ghost predicate AllAccepted(sent: seq<Sent<Content>>) {
    forall i :: 0 <= i < |sent| ==> sent[i].Accepted()
  }

  ghost predicate Tracking(p: Course<CacheState>, s: CacheState) {
    && p.failure.None? && p.session.active && p.session.err.None?
    && p.session.state == s && p.current == Native(s.policy, false)
    && Proper(s.policy) && AllAccepted(p.session.sent)
  }

  lemma {:induction false} TrackingState(p: Course<CacheState>, s: CacheState)
    requires Tracking(p, s)
    ensures p.failure.None? && p.current == Native(s.policy, false) && Proper(s.policy) && p.session.state == s
            && AllAccepted(p.session.sent)
  {
  }

  lemma {:induction false} SendTracks(p: Course<CacheState>, s: CacheState, t: CacheState, reply: Reply,
        request: Request<Content>, allowMissing: bool, check: Check)
    requires Tracking(p, s) && Mutates(request.verb) && CacheSend(s, request) == (t, reply)
    requires reply == Done || (allowMissing && reply == Missing)
    requires t.others == s.others && Proper(t.policy) && Passes(check, t.policy)
    ensures Tracking(Checked(CacheDevice(), p, request, allowMissing, Watch(check, s.others)), t)
  {
    hide CacheSend, Proper, Passes;
  }

  // ---- what the cache must hold ----

  function Held(p: Policy, c: string): (l: Limit)
    requires c in p.limits
  {
    Limit(p.limits[c], p.unit == KBPS)
  }

  /** The class is to be changed or removed. */
  predicate Moves(p: Policy, desired: Policy, c: string)
    requires c in p.limits
  {
    desired.unit != p.unit || RateOf(desired, c) != p.limits[c]
  }

  /** The cache has the native value of every class that is to be changed or removed. */
  predicate Aligned(s: CacheState, desired: Policy) {
    forall c :: c in s.policy.limits && Moves(s.policy, desired, c) ==>
      c in s.cached && s.cached[c] == Held(s.policy, c)
  }

  lemma {:induction false} PrimeSends(s: CacheState, desired: Policy)
    requires Proper(s.policy) && Prime(s.policy, desired) != map[]
    ensures var prime := Prime(s.policy, desired);
            CacheSend(s, Request("PATCH", Rates(prime))) == (s.(cached := s.cached + prime), Done)
  {
    var prime := Prime(s.policy, desired);
    var unseen := Unseen(s.cached, prime);
    assert s.policy.limits + unseen == s.policy.limits;
    PrimeUnit(s.policy, desired);
  }

  lemma {:induction false} PrimeUnit(p: Policy, desired: Policy)
    requires Proper(p) && Prime(p, desired) != map[]
    ensures SharedUnit(Prime(p, desired)) == p.unit && p.limits != map[]
  {
    var prime := Prime(p, desired);
    var c :| c in prime;
    assert prime[c].kbps == (p.unit == KBPS);
  }

  lemma {:induction false} PrimedTracks(p: Course<CacheState>, s: CacheState, desired: Policy)
    returns (t: CacheState)
    requires Tracking(p, s)
    ensures Tracking(Primed(CacheDevice(), p, desired, s.others), t)
    ensures t.policy == s.policy && t.others == s.others && Aligned(t, desired)
  {
    hide Tracking, Checked, CacheSend, Proper;
    TrackingState(p, s);
    var prime := Prime(s.policy, desired);
    t := s.(cached := s.cached + prime);
    if prime == map[] {
      assert s.cached + prime == s.cached;
    } else {
      PrimeSends(s, desired);
      SendTracks(p, s, t, Done, Request("PATCH", Rates(prime)), false, Exactly(s.policy));
    }
  }

  /** Unless the limits are gone, the unit is the desired one. */
  predicate UnitSettled(p: Policy, desired: Policy) { p.limits == map[] || p.unit == desired.unit }

  lemma {:induction false} ResetTracks(p: Course<CacheState>, s: CacheState, desired: Policy)
    returns (t: CacheState)
    requires Tracking(p, s) && Aligned(s, desired)
    ensures Tracking(Reset(CacheDevice(), p, desired, s.others), t)
    ensures t.others == s.others && Aligned(t, desired) && UnitSettled(t.policy, desired)
  {
    hide Tracking, Checked;
    TrackingState(p, s);
    if s.policy.limits == map[] || s.policy.unit == desired.unit {
      return s;
    }
    t := CacheState(Policy("", map[]), map[], s.others);
    assert s.policy.limits - s.cached.Keys == map[];
    SendTracks(p, s, t, Done, Request("DELETE", Whole), true, Cleared);
  }

  lemma {:induction false} DropSends(s: CacheState, desired: Policy, c: string)
    requires Proper(s.policy) && Aligned(s, desired) && UnitSettled(s.policy, desired) && c in s.policy.limits
             && c !in desired.limits
    ensures var t := CacheState(Minus(s.policy, c), s.cached - {c}, s.others);
            && CacheSend(s, Request("DELETE", Class(c))) == (t, Done)
            && Proper(t.policy) && Aligned(t, desired) && UnitSettled(t.policy, desired)
  {
    assert Moves(s.policy, desired, c);
    var t := CacheState(Minus(s.policy, c), s.cached - {c}, s.others);
    forall x | x in t.policy.limits && Moves(t.policy, desired, x)
      ensures x in t.cached && t.cached[x] == Held(t.policy, x)
    {
      assert Moves(s.policy, desired, x) && Held(s.policy, x) == Held(t.policy, x);
    }
  }

  lemma {:induction false} DroppedTracks(p: Course<CacheState>, s: CacheState, desired: Policy, classes: seq<string>)
    returns (t: CacheState)
    requires Tracking(p, s) && Aligned(s, desired) && UnitSettled(s.policy, desired)
    ensures Tracking(Dropped(CacheDevice(), p, desired, s.others, classes), t)
    ensures t.others == s.others && Aligned(t, desired) && UnitSettled(t.policy, desired)
    ensures forall c :: c in t.policy.limits ==> c in s.policy.limits && (c in desired.limits || c !in classes)
    decreases |classes|
  {
    hide Tracking, Checked, Aligned, UnitSettled, CacheSend, Proper;
    if classes == [] {
      return s;
    }
    var c := classes[0];
    assert classes == [c] + classes[1..];
    TrackingState(p, s);
    if c !in s.policy.limits || c in desired.limits {
      t := DroppedTracks(p, s, desired, classes[1..]);
    } else {
      DropSends(s, desired, c);
      var u := CacheState(Minus(s.policy, c), s.cached - {c}, s.others);
      SendTracks(p, s, u, Done, Request("DELETE", Class(c)), true, Exactly(u.policy));
      t := DroppedTracks(DropOne(CacheDevice(), p, desired, s.others, c), u, desired, classes[1..]);
    }
  }

  lemma {:induction false} InvalidateSends(s: CacheState, desired: Policy, c: string)
    requires Proper(s.policy) && Aligned(s, desired) && c !in s.policy.limits
    ensures var t := s.(cached := s.cached - {c});
            && CacheSend(s, Request("DELETE", Class(c))) == (t, if c in s.cached then Done else Missing)
            && Aligned(t, desired)
  {
    assert s.policy.limits - {c} == s.policy.limits;
    if c !in s.cached { assert s.cached - {c} == s.cached; }
  }

  lemma {:induction false} InvalidatedTracks(p: Course<CacheState>, s: CacheState, desired: Policy, order: seq<string>)
    returns (t: CacheState)
    requires Tracking(p, s) && Aligned(s, desired)
    ensures Tracking(Invalidated(CacheDevice(), p, s.others, order), t)
    ensures t.policy == s.policy && t.others == s.others && Aligned(t, desired)
    ensures forall c :: c in t.cached ==> c in s.cached && (c in order ==> c in s.policy.limits)
  {
    hide Tracking, Checked, Aligned, CacheSend, Proper;
    if order == [] {
      return s;
    }
    var n := |order| - 1;
    var c := order[n];
    assert order == order[..n] + [c];
    var u := InvalidatedTracks(p, s, desired, order[..n]);
    var q := Invalidated(CacheDevice(), p, s.others, order[..n]);
    TrackingState(q, u);
    if c in u.policy.limits {
      return u;
    }
    InvalidateSends(u, desired, c);
    t := u.(cached := u.cached - {c});
    SendTracks(q, u, t, if c in u.cached then Done else Missing, Request("DELETE", Class(c)), true, Exactly(u.policy));
  }

  /** Only desired classes are left, and no class to be added is cached. */
  predicate Ready(s: CacheState, desired: Policy) {
    && Aligned(s, desired) && UnitSettled(s.policy, desired) && Proper(s.policy)
    && (forall c :: c in s.policy.limits ==> c in desired.limits)
    && (forall c :: c in desired.limits && c in s.cached ==> c in s.policy.limits)
  }

  lemma {:induction false} NothingChanges(p: Policy, desired: Policy)
    requires Proper(p) && Valid(desired) && Changes(p, desired) == map[]
    requires forall c :: c in p.limits ==> c in desired.limits
    ensures p == desired
  {
    forall c | c in desired.limits ensures c in p.limits && p.limits[c] == desired.limits[c] && p.unit == desired.unit {
      assert c !in Changes(p, desired);
    }
    assert p.limits.Keys == desired.limits.Keys;
    assert p.limits == desired.limits;
    if desired.limits != map[] {
      var c :| c in desired.limits;
      assert p.unit == desired.unit;
    }
  }

  lemma {:induction false} ChangesUnseen(s: CacheState, desired: Policy)
    requires Ready(s, desired) && Valid(desired)
    ensures var rates := Changes(s.policy, desired);
            && Unseen(s.cached, rates).Keys == rates.Keys
            && s.policy.limits + Unseen(s.cached, rates) == desired.limits
            && !Conflicts(s.policy, rates)
  {
    var rates := Changes(s.policy, desired);
    forall c | c in rates ensures !(c in s.cached && s.cached[c] == rates[c]) {
      if c in s.policy.limits {
        assert Moves(s.policy, desired, c);
        assert s.cached[c] == Held(s.policy, c);
      }
    }
    assert Unseen(s.cached, rates).Keys == rates.Keys;
    var limits := s.policy.limits + Unseen(s.cached, rates);
    forall c | c in desired.limits ensures c in limits && limits[c] == desired.limits[c] {
      assert c in rates <==> Differs(s.policy, desired, c);
    }
    assert limits.Keys == desired.limits.Keys;
  }

  lemma {:induction false} ChangesUnit(p: Policy, desired: Policy)
    requires Valid(desired) && Changes(p, desired) != map[]
    ensures SharedUnit(Changes(p, desired)) == desired.unit && desired.limits != map[]
  {
    var rates := Changes(p, desired);
    var c :| c in rates;
    assert rates[c].kbps == (desired.unit == KBPS);
  }

  lemma {:induction false} PatchSends(s: CacheState, desired: Policy)
    requires Ready(s, desired) && Valid(desired) && Changes(s.policy, desired) != map[]
    ensures var rates := Changes(s.policy, desired);
            CacheSend(s, Request("PATCH", Rates(rates))) == (CacheState(desired, s.cached + rates, s.others), Done)
  {
    hide Ready, Changes, Conflicts, SharedUnit, Unseen, Valid;
    var rates := Changes(s.policy, desired);
    ChangesUnseen(s, desired);
    ChangesUnit(s.policy, desired);
    assert Unseen(s.cached, rates) != map[] by { assert Unseen(s.cached, rates).Keys != {}; }
  }

  lemma {:induction false} PatchedTracks(p: Course<CacheState>, s: CacheState, desired: Policy)
    returns (t: CacheState)
    requires Tracking(p, s) && Ready(s, desired) && Valid(desired)
    ensures Tracking(Patched(CacheDevice(), p, desired, s.others), t)
    ensures t.policy == desired && t.others == s.others
  {
    hide Tracking, Checked, CacheSend, Aligned, Proper, Valid, Changes;
    TrackingState(p, s);
    var rates := Changes(s.policy, desired);
    if rates == map[] {
      NothingChanges(s.policy, desired);
      return s;
    }
    PatchSends(s, desired);
    ValidProper(desired);
    t := CacheState(desired, s.cached + rates, s.others);
    SendTracks(p, s, t, Done, Request("PATCH", Rates(rates)), false, Exactly(desired));
  }

  lemma {:induction false} StepsTrack(p: Course<CacheState>, s: CacheState, desired: Policy, order: seq<string>)
    returns (t: CacheState)
    requires Tracking(p, s) && Valid(desired) && forall c :: c in order <==> c in desired.limits
    ensures Tracking(Steps(CacheDevice(), p, desired, s.others, order), t)
    ensures t.policy == desired && t.others == s.others
  {
    hide Tracking, Primed, Reset, Dropped, Invalidated, Patched, Aligned, UnitSettled, Proper, Valid;
    var d := CacheDevice();
    var p1 := Primed(d, p, desired, s.others);
    var s1 := PrimedTracks(p, s, desired);
    var p2 := Reset(d, p1, desired, s.others);
    var s2 := ResetTracks(p1, s1, desired);
    var p3 := Dropped(d, p2, desired, s.others, CLASSES);
    var s3 := DroppedTracks(p2, s2, desired, CLASSES);
    TrackingState(p2, s2);
    OnlyDesired(s2.policy, s3.policy, desired);
    var p4 := Invalidated(d, p3, s.others, order);
    var s4 := InvalidatedTracks(p3, s3, desired, order);
    TrackingState(p4, s4);
    t := PatchedTracks(p4, s4, desired);
    TrackingState(Patched(d, p4, desired, s.others), t);
  }

  lemma {:induction false} OnlyDesired(before: Policy, after: Policy, desired: Policy)
    requires Proper(before) && forall c :: c in after.limits ==>
             c in before.limits && (c in desired.limits || c !in CLASSES)
    ensures forall c :: c in after.limits ==> c in desired.limits
  {
  }

  /** From every native policy and every cache, in every order of visiting the desired
      classes: no mutation is refused, and the interface ends with the desired policy and
      everything else as it was. */
  lemma {:induction false} Converges(s: CacheState, desired: Policy, order: seq<string>)
    requires Proper(s.policy) && Valid(desired) && multiset(order) == multiset(desired.limits.Keys)
    ensures var r := Applied(CacheDevice(), s, desired, order);
            && r.failure.None? && AllAccepted(r.session.sent) && r.current == Native(desired, false)
            && r.session.state.policy == desired && r.session.state.others == s.others
  {
    hide Steps, Proper, Valid, AllAccepted;
    forall c ensures c in order <==> c in desired.limits {
      assert c in multiset(order) <==> c in multiset(desired.limits.Keys);
    }
    var p := Progress(Fresh<CacheState, Content>(s), Native(s.policy, false), [], None);
    assert AllAccepted(p.session.sent) by { NothingSent(); }
    if s.policy != desired {
      var t := StepsTrack(p, s, desired, order);
    }
  }

  lemma {:induction false} NothingSent()
    ensures AllAccepted([])
  {
  }
}
