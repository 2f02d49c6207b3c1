/** One configuration workflow on a device: scoped use, a failure that sticks, and a save
    only after complete success. The device is any pair of functions on its state. */
module Updating {
  import opened Prelude

  datatype Request<+X> = Request(verb: string, content: X)

  datatype Reply = Done | Missing | Refused

  datatype Error = Inactive | NotAMutation | Failed(reply: Reply)

  /** What a read of native configuration yields: the managed object, and every other line. */
  datatype View<+O> = View(owned: O, unowned: seq<string>)

  /** `send` performs a mutation, `show` reads native configuration, and `probe` asks whether
      the REST collection still holds what a write relies on. */
  datatype Device<!S, !X, !O, !G> = Device(
    send: (S, Request<X>) -> (S, Reply),
    show: S -> (S, Option<View<O>>),
    probe: (S, G) -> (S, bool))

  /** A request that reached the device, and whether a missing object was acceptable. */
  datatype Sent<+X> = Sent(request: Request<X>, reply: Reply, allowMissing: bool) {
    predicate Accepted() { reply == Done || (allowMissing && reply == Missing) }
  }

  datatype Session<S, X> = Session(state: S, sent: seq<Sent<X>>, err: Option<Error>, active: bool)

  predicate Mutates(verb: string) {
    verb == "PATCH" || verb == "PUT" || verb == "POST" || verb == "DELETE"
  }

  function Fresh<S, X>(state: S): (s: Session<S, X>) { Session(state, [], None, true) }

  /** One mutation as the workflow performs it. */
  function AfterRest<S, X, O, G>(d: Device<S, X, O, G>, s: Session<S, X>, request: Request<X>,
        allowMissing: bool): (r: (Session<S, X>, Option<Error>))
  {
    if !s.active then (s, Some(Inactive))
    else if s.err.Some? then (s, s.err)
    else if !Mutates(request.verb) then (s.(err := Some(NotAMutation)), Some(NotAMutation))
    else
      var (state, reply) := d.send(s.state, request);
      var sent := Sent(request, reply, allowMissing);
      var err := if sent.Accepted() then None else Some(Failed(reply));
      (Session(state, s.sent + [sent], err, true), err)
  }

  function AfterLook<S, X, O, G>(d: Device<S, X, O, G>, s: Session<S, X>): (r: (Session<S, X>, Option<View<O>>)) {
    var (state, view) := d.show(s.state);
    (s.(state := state), view)
  }

  function AfterProbe<S, X, O, G>(d: Device<S, X, O, G>, s: Session<S, X>, wanted: G): (r: (Session<S, X>, bool)) {
    var (state, held) := d.probe(s.state, wanted);
    (s.(state := state), held)
  }

  class Update<S, X> {
    var state: S
    var sent: seq<Sent<X>>
    var err: Option<Error>
    var active: bool

    function Now(): (s: Session<S, X>)
      reads this
    {
      Session(state, sent, err, active)
    }

    constructor (start: S)
      ensures Now() == Fresh(start)
    {
      state, sent, err, active := start, [], None, true;
    }

    method Rest<O, G>(d: Device<S, X, O, G>, request: Request<X>, allowMissing: bool) returns (e: Option<Error>)
      modifies this
      ensures (Now(), e) == AfterRest(d, old(Now()), request, allowMissing)
    {
      if !active {
        return Some(Inactive);
      }
      if err.Some? {
        return err;
      }
      if request.verb != "PATCH" && request.verb != "PUT" && request.verb != "POST" && request.verb != "DELETE" {
        err := Some(NotAMutation);
        return err;
      }
      var (next, reply) := d.send(state, request);
      state, sent := next, sent + [Sent(request, reply, allowMissing)];
      err := if reply == Done then None else Some(Failed(reply));
      if allowMissing && err == Some(Failed(Missing)) {
        err := None;
      }
      return err;
    }

    method DeleteIfPresent<O, G>(d: Device<S, X, O, G>, content: X) returns (e: Option<Error>)
      modifies this
      ensures (Now(), e) == AfterRest(d, old(Now()), Request("DELETE", content), true)
    {
      e := Rest(d, Request("DELETE", content), true);
    }

    method Look<O, G>(d: Device<S, X, O, G>) returns (view: Option<View<O>>)
      modifies this`state
      ensures (Now(), view) == AfterLook(d, old(Now()))
    {
      var (next, seen) := d.show(state);
      state, view := next, seen;
    }

    method Probe<O, G>(d: Device<S, X, O, G>, wanted: G) returns (held: bool)
      modifies this`state
      ensures (Now(), held) == AfterProbe(d, old(Now()), wanted)
    {
      var (next, answer) := d.probe(state, wanted);
      state, held := next, answer;
    }

    /** After the callback: the workflow's verdict, and whether configuration is saved. */
    method Finish(callbackFailed: bool, persistence: string) returns (failed: bool, save: bool)
      modifies this`active
      ensures Now() == old(Now()).(active := false)
      ensures failed == (callbackFailed || err.Some?)
      ensures save == Saves(Now(), callbackFailed, persistence)
    {
      active := false;
      failed := callbackFailed;
      if err.Some? {
        failed := true;
      }
      if failed {
        return failed, false;
      }
      save := persistence == "after_each_write";
    }
  }

  predicate Saves<S, X>(s: Session<S, X>, callbackFailed: bool, persistence: string) {
    !callbackFailed && s.err.None? && persistence == "after_each_write"
  }

  // ---- arbitrary callbacks ----

  /** What a callback does next; it sees everything, and may ignore every error. */
  datatype Move<+X, +G> = Mutate(request: Request<X>) | DeleteIfPresent(content: X) | Read | Ask(wanted: G)

  type Callback<!S, !X, !G> = (nat, Session<S, X>) -> Move<X, G>

  function Asked<X, G>(m: Move<X, G>): (r: seq<Sent<X>>) {
    match m
    case Mutate(request) => [Sent(request, Done, false)]
    case DeleteIfPresent(content) => [Sent(Request("DELETE", content), Done, true)]
    case _ => []
  }

  function Make<S, X, O, G>(d: Device<S, X, O, G>, s: Session<S, X>, m: Move<X, G>): (r: Session<S, X>) {
    match m
    case Mutate(request) => AfterRest(d, s, request, false).0
    case DeleteIfPresent(content) => AfterRest(d, s, Request("DELETE", content), true).0
    case Read => AfterLook(d, s).0
    case Ask(wanted) => AfterProbe(d, s, wanted).0
  }

  /** The session after the callback's first `n` moves. */
  function Drive<S, X, O, G>(d: Device<S, X, O, G>, s: Session<S, X>, cb: Callback<S, X, G>,
        n: nat): (r: Session<S, X>) {
    if n == 0 then s
    else
      var before := Drive(d, s, cb, n - 1);
      Make(d, before, cb(n - 1, before))
  }

  /** The mutations the callback asked for in its first `n` moves. */
  function Requests<S, X, O, G>(d: Device<S, X, O, G>, s: Session<S, X>, cb: Callback<S, X, G>,
        n: nat): (r: seq<Sent<X>>) {
    if n == 0 then []
    else Requests(d, s, cb, n - 1) + Asked(cb(n - 1, Drive(d, s, cb, n - 1)))
  }

  /** The same mutation, whatever the reply was. */
  predicate SameAsk<X(==)>(a: Sent<X>, b: Sent<X>) { a.request == b.request && a.allowMissing == b.allowMissing }

  /** At most the last mutation failed, and the retained error says which kind it was. */
  ghost predicate FailsLast<X>(sent: seq<Sent<X>>, err: Option<Error>) {
    && (forall i :: 0 <= i < |sent| - 1 ==> sent[i].Accepted())
    && (forall i :: 0 <= i < |sent| ==> Mutates(sent[i].request.verb))
    && (sent != [] ==> (sent[|sent| - 1].Accepted() <==> err.None? || err == Some(NotAMutation)))
    && (err.Some? && err.value.Failed? ==> sent != [] && err.value.reply == sent[|sent| - 1].reply)
    && err != Some(Inactive)
  }

  /** The mutations sent are the ones asked for, in order, up to the first failure; a
      workflow without a retained error sent them all. */
  ghost predicate SendsAsked<X>(sent: seq<Sent<X>>, asked: seq<Sent<X>>, err: Option<Error>) {
    && |sent| <= |asked|
    && (forall i :: 0 <= i < |sent| ==> SameAsk(sent[i], asked[i]))
    && (err.None? ==> |sent| == |asked|)
    && (err == Some(NotAMutation) ==> |sent| < |asked| && !Mutates(asked[|sent|].request.verb))
  }

  lemma {:induction false} MoveFailsLast<S, X, O, G>(d: Device<S, X, O, G>, s: Session<S, X>, m: Move<X, G>,
        asked: seq<Sent<X>>)
    requires s.active && FailsLast(s.sent, s.err) && SendsAsked(s.sent, asked, s.err)
    ensures var r := Make(d, s, m);
            r.active && FailsLast(r.sent, r.err) && SendsAsked(r.sent, asked + Asked(m), r.err)
  {
  }

  /** Whatever the callback does with the errors it is given. */
  lemma {:induction false} OneFailureLast<S, X, O, G>(d: Device<S, X, O, G>, start: S, cb: Callback<S, X, G>, n: nat)
    ensures var r := Drive(d, Fresh(start), cb, n);
            r.active && FailsLast(r.sent, r.err) && SendsAsked(r.sent, Requests(d, Fresh(start), cb, n), r.err)
  {
    hide FailsLast, SendsAsked, Make;
    if n == 0 {
      NothingSent<X>();
    } else {
      OneFailureLast(d, start, cb, n - 1);
      var before := Drive(d, Fresh(start), cb, n - 1);
      MoveFailsLast(d, before, cb(n - 1, before), Requests(d, Fresh(start), cb, n - 1));
    }
  }

  lemma {:induction false} NothingSent<X>()
    ensures FailsLast<X>([], None) && SendsAsked<X>([], [], None)
  {
  }

  /** Nothing reaches the device once a failure is retained or the callback has ended. */
  lemma {:induction false} SilentOnceOver<S, X, O, G>(d: Device<S, X, O, G>, s: Session<S, X>, cb: Callback<S, X, G>,
        n: nat)
    requires !s.active || s.err.Some?
    ensures var r := Drive(d, s, cb, n); r.sent == s.sent && r.err == s.err && r.active == s.active
  {
    if n > 0 { SilentOnceOver(d, s, cb, n - 1); }
  }

  /** A save follows only workflows every one of whose requested mutations was accepted. */
  lemma {:induction false} SaveMeansAllAccepted<S, X, O, G>(d: Device<S, X, O, G>, start: S, cb: Callback<S, X, G>,
        n: nat, callbackFailed: bool, persistence: string)
    requires Saves(Drive(d, Fresh(start), cb, n), callbackFailed, persistence)
    ensures !callbackFailed
    ensures var sent, asked := Drive(d, Fresh(start), cb, n).sent, Requests(d, Fresh(start), cb, n);
            |sent| == |asked| && forall i :: 0 <= i < |sent| ==> SameAsk(sent[i], asked[i]) && sent[i].Accepted()
  {
    OneFailureLast(d, start, cb, n);
  }

  /** What happens around a callback: whether the host's gate is entered before the context
      ends, whether the firmware is recognised, and whether a save is confirmed. */
  datatype Surroundings = Surroundings(entered: bool, recognised: bool, confirmed: bool) {
    predicate Begins() { entered && recognised }

    /** The workflow's result: a save that is not confirmed fails it too. */
    predicate Fails(failed: bool, save: bool) { failed || (save && !confirmed) }
  }

  /** The workflow around a callback: fresh session, the callback's moves, then the verdict
      and the save; without gate or firmware nothing at all is done. */
  method RunWorkflow<S, X, O, G>(d: Device<S, X, O, G>, start: S, cb: Callback<S, X, G>, n: nat, callbackFailed: bool,
        around: Surroundings, persistence: string)
    returns (end: Session<S, X>, failed: bool, save: bool)
    ensures end == (if around.Begins() then Drive(d, Fresh(start), cb, n) else Fresh(start)).(active := false)
    ensures save == (around.Begins() && Saves(end, callbackFailed, persistence))
    ensures failed <==> !around.Begins() || callbackFailed || end.err.Some? || (save && !around.confirmed)
  {
    hide AfterRest, AfterLook, AfterProbe;
    if !around.entered || !around.recognised {
      return Fresh(start).(active := false), true, false;
    }
    var u := new Update(start);
    for i := 0 to n
      invariant u.Now() == Drive(d, Fresh(start), cb, i)
    {
      match cb(i, u.Now()) {
        case Mutate(request) => var _ := u.Rest(d, request, false);
        case DeleteIfPresent(content) => var _ := u.DeleteIfPresent(d, content);
        case Read => var _ := u.Look(d);
        case Ask(wanted) => var _ := u.Probe(d, wanted);
      }
    }
    failed, save := u.Finish(callbackFailed, persistence);
    end := u.Now();
    if save && !around.confirmed {
      failed := true;
    }
  }
}
