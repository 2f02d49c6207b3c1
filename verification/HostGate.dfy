/** The per-host gate as a transition system: devices opened under aliases of a host name,
    workflows that wait, enter, send requests and leave, in any interleaving. */
module HostGate {

  function LowerChar(c: char): (r: char) {
    if 'A' <= c <= 'Z' then (c as int + 32) as char else c
  }

  /** The name under which a host's gate is shared. */
  function Key(host: string): (r: string) {
    var trimmed := if host != "" && host[|host| - 1] == '.' then host[..|host| - 1] else host;
    seq(|trimmed|, i requires 0 <= i < |trimmed| => LowerChar(trimmed[i]))
  }

  /** A name that ends in a dot is the same name without it. */
  predicate Dotted(host: string) { host != "" && host[|host| - 1] == '.' }

  predicate SameLetter(x: char, y: char) {
    || x == y
    || ('A' <= x <= 'Z' && y as int - x as int == 'a' as int - 'A' as int)
    || ('A' <= y <= 'Z' && x as int - y as int == 'a' as int - 'A' as int)
  }

  /** The names agree letter by letter, but for case and one trailing dot. */
  predicate SameHost(a: string, b: string) {
    var m, n := |a| - if Dotted(a) then 1 else 0, |b| - if Dotted(b) then 1 else 0;
    m == n && forall i :: 0 <= i < m ==> SameLetter(a[i], b[i])
  }

  lemma {:induction false} LowerIs(x: char, y: char)
    ensures LowerChar(x) == LowerChar(y) <==> SameLetter(x, y)
  {
  }

  lemma {:induction false} SameHostIs(a: string, b: string)
    ensures Key(a) == Key(b) <==> SameHost(a, b)
  {
    hide LowerChar, SameLetter;
    var m := |a| - if Dotted(a) then 1 else 0;
    assert |Key(a)| == m && |Key(b)| == |b| - if Dotted(b) then 1 else 0;
    assert forall i :: 0 <= i < |Key(a)| ==> Key(a)[i] == LowerChar(a[i]);
    assert forall i :: 0 <= i < |Key(b)| ==> Key(b)[i] == LowerChar(b[i]);
    if |Key(a)| == |Key(b)| {
      forall i | 0 <= i < m ensures Key(a)[i] == Key(b)[i] <==> SameLetter(a[i], b[i]) { LowerIs(a[i], b[i]); }
    }
  }

  datatype Phase = Waiting | Inside | Finished | Cancelled

  datatype Device = Device(host: string, gate: nat)

  datatype Workflow = Workflow(device: nat, phase: Phase)

  /** `gates` counts the token buffered in each channel; `log` lists the workflow of every
      request sent, over all hosts. */
  datatype System = System(
    registry: map<string, nat>,
    gates: seq<nat>,
    devices: seq<Device>,
    workflows: seq<Workflow>,
    log: seq<nat>)

  datatype Event =
    | Open(host: string)
    | Start(device: nat)
    | Acquire(w: nat)
    | Cancel(w: nat)
    | Request(w: nat)
    | Release(w: nat)

  const CAPACITY := 1

  const INITIAL := System(map[], [], [], [], [])

  predicate WellNumbered(s: System) {
    && (forall k :: k in s.registry ==> s.registry[k] < |s.gates|)
    && (forall i :: 0 <= i < |s.devices| ==> s.devices[i].gate < |s.gates|)
    && (forall w :: 0 <= w < |s.workflows| ==> s.workflows[w].device < |s.devices|)
    && (forall i :: 0 <= i < |s.log| ==> s.log[i] < |s.workflows|)
  }

  function HostKey(s: System, w: nat): (r: string)
    requires WellNumbered(s) && w < |s.workflows|
  {
    Key(s.devices[s.workflows[w].device].host)
  }

  function GateOf(s: System, w: nat): (r: nat)
    requires WellNumbered(s) && w < |s.workflows|
    ensures r < |s.gates|
  {
    s.devices[s.workflows[w].device].gate
  }

  predicate Enabled(s: System, e: Event)
    requires WellNumbered(s)
  {
    match e
    case Open(_) => true
    case Start(device) => device < |s.devices|
    case Acquire(w) => w < |s.workflows| && s.workflows[w].phase == Waiting && s.gates[GateOf(s, w)] < CAPACITY
    case Cancel(w) => w < |s.workflows| && s.workflows[w].phase == Waiting
    case Request(w) => w < |s.workflows| && s.workflows[w].phase == Inside
    case Release(w) => w < |s.workflows| && s.workflows[w].phase == Inside && s.gates[GateOf(s, w)] > 0
  }

  function SetPhase(s: System, w: nat, phase: Phase): (r: System)
    requires w < |s.workflows|
  {
    s.(workflows := s.workflows[w := s.workflows[w].(phase := phase)])
  }

  /** An opened device always allocates a channel, and keeps it only if its key is new. */
  function OpenDevice(s: System, host: string): (r: System) {
    var made := |s.gates|;
    var registry := if Key(host) in s.registry then s.registry else s.registry[Key(host) := made];
    s.(registry := registry, gates := s.gates + [0], devices := s.devices + [Device(host, registry[Key(host)])])
  }

  /** One step of the system; an event that is not enabled changes nothing. */
  function Next(s: System, e: Event): (r: System)
    requires WellNumbered(s)
    ensures WellNumbered(r)
  {
    if !Enabled(s, e) then s else
    match e
    case Open(host) => OpenDevice(s, host)
    case Start(device) => s.(workflows := s.workflows + [Workflow(device, Waiting)])
    case Acquire(w) =>
      var g := GateOf(s, w);
      SetPhase(s.(gates := s.gates[g := s.gates[g] + 1]), w, Inside)
    case Cancel(w) => SetPhase(s, w, Cancelled)
    case Request(w) => s.(log := s.log + [w])
    case Release(w) =>
      var g := GateOf(s, w);
      SetPhase(s.(gates := s.gates[g := s.gates[g] - 1]), w, Finished)
  }

  function After(events: seq<Event>): (r: System)
    ensures WellNumbered(r)
  {
    if events == [] then INITIAL else Next(After(events[..|events| - 1]), events[|events| - 1])
  }

  // ---- the invariant ----

  /** Devices share a channel exactly when their hosts share a key. */
  ghost predicate Registered(s: System)
    requires WellNumbered(s)
  {
    && (forall k, m :: k in s.registry && m in s.registry && s.registry[k] == s.registry[m] ==> k == m)
    && (forall i :: 0 <= i < |s.devices| ==>
          Key(s.devices[i].host) in s.registry && s.registry[Key(s.devices[i].host)] == s.devices[i].gate)
  }

  ghost predicate Holds(s: System, w: nat, g: nat)
    requires WellNumbered(s)
  {
    w < |s.workflows| && s.workflows[w].phase == Inside && GateOf(s, w) == g
  }

  /** A channel holds one token while one workflow is inside, and none otherwise. */
  ghost predicate TokenAt(s: System, g: nat)
    requires WellNumbered(s) && g < |s.gates|
  {
    && s.gates[g] <= CAPACITY
    && (s.gates[g] > 0 <==> exists w :: Holds(s, w, g))
    && (forall v, w :: Holds(s, v, g) && Holds(s, w, g) ==> v == w)
  }

  ghost predicate Tokens(s: System)
    requires WellNumbered(s)
  {
    forall g :: 0 <= g < |s.gates| ==> TokenAt(s, g)
  }

  /** Between two requests of one workflow no other workflow addresses its host. */
  ghost predicate Unbroken(s: System)
    requires WellNumbered(s)
  {
    forall i, j, k ::
      0 <= i < j < k < |s.log| && s.log[i] == s.log[k] && GateOf(s, s.log[j]) == GateOf(s, s.log[i]) ==>
        s.log[j] == s.log[i]
  }

  /** The workflow inside has sent its host's latest requests ever since its first. */
  ghost predicate Latest(s: System)
    requires WellNumbered(s)
  {
    forall i, j ::
      0 <= i < j < |s.log| && s.workflows[s.log[i]].phase == Inside && GateOf(s, s.log[j]) == GateOf(s, s.log[i]) ==>
        s.log[j] == s.log[i]
  }

  ghost predicate Contiguous(s: System)
    requires WellNumbered(s)
  {
    && Unbroken(s)
    && Latest(s)
    && (forall i :: 0 <= i < |s.log| ==>
       s.workflows[s.log[i]].phase == Inside || s.workflows[s.log[i]].phase == Finished)
  }

  lemma {:induction false} KeepsRegistered(s: System, e: Event)
    requires WellNumbered(s) && Registered(s)
    ensures Registered(Next(s, e))
  {
    hide Key;
  }

  lemma {:induction false} HoldsAfterOpen(s: System, host: string, w: nat, g: nat)
    requires WellNumbered(s)
    ensures Holds(Next(s, Open(host)), w, g) <==> Holds(s, w, g)
  {
    hide Key;
  }

  lemma {:induction false} HoldsAfterStart(s: System, device: nat, w: nat, g: nat)
    requires WellNumbered(s)
    ensures Holds(Next(s, Start(device)), w, g) <==> Holds(s, w, g)
  {
  }

  lemma {:induction false} HoldsAfterPhase(s: System, e: Event, w: nat, g: nat)
    requires WellNumbered(s) && Enabled(s, e) && (e.Acquire? || e.Release? || e.Cancel?)
    ensures Holds(Next(s, e), w, g) <==> if w == e.w then e.Acquire? && g == GateOf(s, w) else Holds(s, w, g)
  {
  }

  lemma {:induction false} KeepsTokens(s: System, e: Event)
    requires WellNumbered(s) && Tokens(s)
    ensures Tokens(Next(s, e))
  {
    hide Key, Holds, TokenAt, Next;
    if Enabled(s, e) {
      forall g: nat | g < |Next(s, e).gates| ensures TokenAt(Next(s, e), g) {
        TokensAt(s, e, g);
      }
    } else {
      assert Next(s, e) == s by { Idle(s, e); }
    }
  }

  lemma {:induction false} Idle(s: System, e: Event)
    requires WellNumbered(s) && !Enabled(s, e)
    ensures Next(s, e) == s
  {
  }

  lemma {:induction false} TokensAt(s: System, e: Event, g: nat)
    requires WellNumbered(s) && Tokens(s) && Enabled(s, e) && g < |Next(s, e).gates|
    ensures TokenAt(Next(s, e), g)
  {
    hide Key, Tokens;
    var t := Next(s, e);
    match e {
      case Open(host) =>
        forall w: nat { HoldsAfterOpen(s, host, w, g); }
        if g < |s.gates| { TokensApply(s, g); }
      case Start(device) =>
        forall w: nat { HoldsAfterStart(s, device, w, g); }
        TokensApply(s, g);
      case Request(w) =>
        assert forall v: nat :: Holds(t, v, g) <==> Holds(s, v, g);
        TokensApply(s, g);
      case _ =>
        TokensApply(s, g);
        PhaseTokens(s, e, g);
    }
  }

  lemma {:induction false} TokensApply(s: System, g: nat)
    requires WellNumbered(s) && Tokens(s) && g < |s.gates|
    ensures TokenAt(s, g)
  {
    hide TokenAt;
  }

  lemma {:induction false} PhaseTokens(s: System, e: Event, g: nat)
    requires WellNumbered(s) && g < |s.gates| && TokenAt(s, g) && Enabled(s, e)
    requires e.Acquire? || e.Release? || e.Cancel?
    ensures TokenAt(Next(s, e), g)
  {
    hide Next, Key;
    var t := Next(s, e);
    var own := g == GateOf(s, e.w);
    assert t.gates[g] ==
      (if !own || e.Cancel? then s.gates[g] else if e.Acquire? then s.gates[g] + 1 else s.gates[g] - 1)
      by { GateAfterPhase(s, e, g); }
    forall w: nat
      ensures Holds(t, w, g) <==> if w == e.w then e.Acquire? && own else Holds(s, w, g)
    {
      HoldsAfterPhase(s, e, w, g);
    }
    assert e.Release? && own ==> Holds(s, e.w, g);
    assert e.Acquire? && own ==> Holds(t, e.w, g);
    assert !own || e.Cancel? ==> !Holds(s, e.w, g);
  }

  lemma {:induction false} GateAfterPhase(s: System, e: Event, g: nat)
    requires WellNumbered(s) && g < |s.gates| && Enabled(s, e)
    requires e.Acquire? || e.Release? || e.Cancel?
    ensures var t := Next(s, e);
            |t.gates| == |s.gates| &&
            t.gates[g] ==
            if g != GateOf(s, e.w) || e.Cancel? then s.gates[g]
            else if e.Acquire? then s.gates[g] + 1 else s.gates[g] - 1
  {
    hide Key;
  }

  /** Steps other than requests leave the log and every logged workflow's standing, except
      that the one inside may leave. */
  lemma {:induction false} KeepsContiguous(s: System, e: Event)
    requires WellNumbered(s) && Tokens(s) && Contiguous(s)
    ensures Contiguous(Next(s, e))
  {
    hide Key, Contiguous, Next, Tokens;
    if !Enabled(s, e) {
      Idle(s, e);
    } else if e.Request? {
      SentInside(s, e.w);
    } else {
      Unsent(s, e);
    }
  }

  lemma {:induction false} Unsent(s: System, e: Event)
    requires WellNumbered(s) && Contiguous(s) && Enabled(s, e) && !e.Request?
    ensures Contiguous(Next(s, e))
  {
    hide Next, GateOf;
    var t := Next(s, e);
    forall i | 0 <= i < |s.log|
      ensures t.log == s.log
      ensures GateOf(t, s.log[i]) == GateOf(s, s.log[i])
      ensures t.workflows[s.log[i]].phase == s.workflows[s.log[i]].phase ||
              (s.workflows[s.log[i]].phase == Inside && t.workflows[s.log[i]].phase == Finished)
    {
      LoggedAfter(s, e, i);
    }
    assert t.log == s.log by { LogAfter(s, e); }
  }

  lemma {:induction false} LogAfter(s: System, e: Event)
    requires WellNumbered(s) && !e.Request?
    ensures Next(s, e).log == s.log
  {
    hide Key;
  }

  lemma {:induction false} LoggedAfter(s: System, e: Event, i: nat)
    requires WellNumbered(s) && Contiguous(s) && Enabled(s, e) && !e.Request? && i < |s.log|
    ensures var t := Next(s, e);
            && t.log == s.log
            && GateOf(t, s.log[i]) == GateOf(s, s.log[i])
            && (t.workflows[s.log[i]].phase == s.workflows[s.log[i]].phase ||
                (s.workflows[s.log[i]].phase == Inside && t.workflows[s.log[i]].phase == Finished))
  {
    hide Key;
  }

  /** A request keeps the log contiguous: whoever is inside is the only one there. */
  lemma {:induction false} SentInside(s: System, w: nat)
    requires WellNumbered(s) && Tokens(s) && Contiguous(s) && Enabled(s, Request(w))
    ensures Contiguous(Next(s, Request(w)))
  {
    hide Key, Tokens, GateOf, Next, Enabled;
    var t := Next(s, Request(w));
    SentState(s, w);
    var g := GateOf(s, w);
    TokensApply(s, g);
    forall i | 0 <= i < |s.log| && s.workflows[s.log[i]].phase == Inside && GateOf(s, s.log[i]) == g
      ensures s.log[i] == w
    {
      assert Holds(s, s.log[i], g) && Holds(s, w, g);
    }
    hide Holds, TokenAt;
    GateKept(s, t);
    StillUnbroken(s, t, w);
    hide Unbroken;
  }

  lemma {:induction false} StillUnbroken(s: System, t: System, w: nat)
    requires WellNumbered(s) && w < |s.workflows| && t == s.(log := s.log + [w]) && WellNumbered(t)
    requires Unbroken(s) && Latest(s) && s.workflows[w].phase == Inside
    requires forall v: nat :: v < |s.workflows| ==> GateOf(t, v) == GateOf(s, v)
    ensures Unbroken(t)
  {
    hide GateOf;
  }

  lemma {:induction false} SentState(s: System, w: nat)
    requires WellNumbered(s) && Enabled(s, Request(w))
    ensures Next(s, Request(w)) == s.(log := s.log + [w])
    ensures w < |s.workflows| && s.workflows[w].phase == Inside
  {
  }

  lemma {:induction false} GateKept(s: System, t: System)
    requires WellNumbered(s) && WellNumbered(t) && t == s.(log := t.log)
    ensures forall v: nat :: v < |s.workflows| ==> GateOf(t, v) == GateOf(s, v)
  {
  }

  lemma {:induction false} Invariant(events: seq<Event>)
    ensures var s := After(events); Registered(s) && Tokens(s) && Contiguous(s)
  {
    hide Next, Registered, Tokens, Contiguous;
    if events == [] {
      InitialHolds();
    } else {
      var e := events[|events| - 1];
      var before := After(events[..|events| - 1]);
      Invariant(events[..|events| - 1]);
      KeepsRegistered(before, e);
      KeepsTokens(before, e);
      KeepsContiguous(before, e);
    }
  }

  lemma {:induction false} InitialHolds()
    ensures Registered(INITIAL) && Tokens(INITIAL) && Contiguous(INITIAL)
  {
  }

  // ---- what follows for every run ----

  /** Devices contend for one gate exactly when their host names agree up to case and one
      trailing dot. */
  lemma {:induction false} AliasesShareGate(events: seq<Event>, i: nat, j: nat)
    requires i < |After(events).devices| && j < |After(events).devices|
    ensures var s := After(events);
            s.devices[i].gate == s.devices[j].gate <==> SameHost(s.devices[i].host, s.devices[j].host)
  {
    hide Key, Next, SameHost;
    Invariant(events);
    SameHostIs(After(events).devices[i].host, After(events).devices[j].host);
  }

  lemma {:induction false} SameHostSameGate(events: seq<Event>, v: nat, w: nat)
    requires v < |After(events).workflows| && w < |After(events).workflows|
    ensures var s := After(events); GateOf(s, v) == GateOf(s, w) <==> HostKey(s, v) == HostKey(s, w)
  {
    hide Key, Next, SameHost;
    var s := After(events);
    AliasesShareGate(events, s.workflows[v].device, s.workflows[w].device);
    SameHostIs(s.devices[s.workflows[v].device].host, s.devices[s.workflows[w].device].host);
  }

  lemma {:induction false} AtMostOneInside(events: seq<Event>, v: nat, w: nat)
    requires v < |After(events).workflows| && w < |After(events).workflows|
    requires var s := After(events);
             s.workflows[v].phase == Inside && s.workflows[w].phase == Inside && HostKey(s, v) == HostKey(s, w)
    ensures v == w
  {
    hide HostKey, Next, After;
    var s := After(events);
    Invariant(events);
    SameHostSameGate(events, v, w);
    TokensApply(s, GateOf(s, v));
    assert Holds(s, v, GateOf(s, v)) && Holds(s, w, GateOf(s, v));
  }

  /** The requests to one host are a concatenation of whole workflows' requests. */
  lemma {:induction false} RequestsDoNotInterleave(events: seq<Event>, i: nat, j: nat, k: nat)
    requires i < j < k < |After(events).log| && After(events).log[i] == After(events).log[k]
    requires var s := After(events); HostKey(s, s.log[j]) == HostKey(s, s.log[i])
    ensures After(events).log[j] == After(events).log[i]
  {
    hide HostKey, Next, After;
    var s := After(events);
    Invariant(events);
    SameHostSameGate(events, s.log[j], s.log[i]);
  }

  /** Leaving never blocks; and a waiting workflow can enter unless another is inside, so
      no cancelled or finished workflow leaves the gate closed. */
  lemma {:induction false} GateNeverStuck(events: seq<Event>, w: nat)
    requires w < |After(events).workflows|
    ensures var s := After(events);
            && (s.workflows[w].phase == Inside ==> Enabled(s, Release(w)))
            && (s.workflows[w].phase == Waiting ==>
                  (Enabled(s, Acquire(w)) <==>
                   forall v :: 0 <= v < |s.workflows| && s.workflows[v].phase == Inside ==>
                     HostKey(s, v) != HostKey(s, w)))
  {
    hide HostKey, Next, After;
    var s := After(events);
    var g := GateOf(s, w);
    Invariant(events);
    TokensApply(s, g);
    forall v | 0 <= v < |s.workflows| ensures GateOf(s, v) == g <==> HostKey(s, v) == HostKey(s, w) {
      SameHostSameGate(events, v, w);
    }
    if s.workflows[w].phase == Inside {
      assert Holds(s, w, g);
    }
    if s.gates[g] > 0 {
      var v: nat :| Holds(s, v, g);
      assert HostKey(s, v) == HostKey(s, w);
    }
    assert forall v: nat :: v < |s.workflows| && s.workflows[v].phase == Inside && GateOf(s, v) == g ==> Holds(s, v, g);
  }
}
