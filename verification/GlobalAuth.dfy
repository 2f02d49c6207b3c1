/** Global authentication settings: their requests, and the four-phase order in which they
    are written so that no state in between lacks what an action or a feature needs. */
module GlobalAuth {
  import opened Prelude
  import opened Updating

  datatype Key =
    | DefaultVlan | RestrictedVlan | CriticalVlan | VoiceVlan | MaxSessions
    | Reauthentication | AuthOrder | FailAction | TimeoutAction
    | Dot1xEnable | MacEnable | MacDot1xDisable | MacDot1xOverride

  datatype Value = Number(n: Int64) | Text(s: string) | Flag(b: bool)

  datatype Config = Config(
    dot1x: bool, mac: bool, order: string,
    defaultVlan: Int64, restrictedVlan: Int64, criticalVlan: Int64, voiceVlan: Int64,
    maxSessions: Int64, reauthentication: bool, macDot1xDisable: bool, macDot1xOverride: bool,
    failure: string, timeout: string)

  type Values = map<Key, Value>

  const KEYS: set<Key> := {
    DefaultVlan, RestrictedVlan, CriticalVlan, VoiceVlan, MaxSessions, Reauthentication, AuthOrder,
    FailAction, TimeoutAction, Dot1xEnable, MacEnable, MacDot1xDisable, MacDot1xOverride }

  const LAST_VLAN := 4094
  const STANDARD_ORDER := "dot1x mac-auth"
  const REVERSED_ORDER := "mac-auth dot1x"

  function ValueOf(p: Config, k: Key): (v: Value) {
    match k
    case DefaultVlan => Number(p.defaultVlan)
    case RestrictedVlan => Number(p.restrictedVlan)
    case CriticalVlan => Number(p.criticalVlan)
    case VoiceVlan => Number(p.voiceVlan)
    case MaxSessions => Number(p.maxSessions)
    case Reauthentication => Flag(p.reauthentication)
    case AuthOrder => Text(p.order)
    case FailAction => Text(p.failure)
    case TimeoutAction => Text(p.timeout)
    case Dot1xEnable => Flag(p.dot1x)
    case MacEnable => Flag(p.mac)
    case MacDot1xDisable => Flag(p.macDot1xDisable)
    case MacDot1xOverride => Flag(p.macDot1xOverride)
  }

  function ValuesOf(p: Config): (r: Values)
    ensures r.Keys == KEYS
    ensures forall k :: k in r ==> r[k] == ValueOf(p, k)
  {
    map k | k in KEYS :: ValueOf(p, k)
  }

  lemma {:induction false} EveryKey(k: Key)
    ensures k in KEYS
  {
  }

  /** The values determine the configuration. */
  lemma {:induction false} ValuesDetermine(p: Config, q: Config)
    ensures ValuesOf(p) == ValuesOf(q) <==> p == q
  {
    if ValuesOf(p) == ValuesOf(q) {
      forall k ensures ValueOf(p, k) == ValueOf(q, k) {
        EveryKey(k);
        assert ValuesOf(p)[k] == ValuesOf(q)[k];
      }
      assert ValueOf(p, DefaultVlan) == ValueOf(q, DefaultVlan)
        && ValueOf(p, RestrictedVlan) == ValueOf(q, RestrictedVlan);
      assert ValueOf(p, CriticalVlan) == ValueOf(q, CriticalVlan) && ValueOf(p, VoiceVlan) == ValueOf(q, VoiceVlan);
      assert ValueOf(p, MaxSessions) == ValueOf(q, MaxSessions)
        && ValueOf(p, Reauthentication) == ValueOf(q, Reauthentication);
      assert ValueOf(p, AuthOrder) == ValueOf(q, AuthOrder) && ValueOf(p, FailAction) == ValueOf(q, FailAction);
      assert ValueOf(p, TimeoutAction) == ValueOf(q, TimeoutAction)
        && ValueOf(p, Dot1xEnable) == ValueOf(q, Dot1xEnable);
      assert ValueOf(p, MacEnable) == ValueOf(q, MacEnable)
        && ValueOf(p, MacDot1xDisable) == ValueOf(q, MacDot1xDisable);
      assert ValueOf(p, MacDot1xOverride) == ValueOf(q, MacDot1xOverride);
    }
  }

  // ---- validation ----

  predicate VlanOk(id: Int64) { 0 <= id <= LAST_VLAN }

  /** Enabled features have a default VLAN, and actions have the VLAN they move hosts to. */
  predicate Grounded(p: Config) {
    && (p.dot1x || p.mac ==> p.defaultVlan != 0)
    && (p.failure != "" ==> p.restrictedVlan != 0)
    && (p.timeout == "critical-vlan" ==> p.criticalVlan != 0)
  }

  predicate Valid(p: Config) {
    && (p.order == STANDARD_ORDER || p.order == REVERSED_ORDER)
    && VlanOk(p.defaultVlan) && VlanOk(p.restrictedVlan) && VlanOk(p.criticalVlan) && VlanOk(p.voiceVlan)
    && p.maxSessions >= 1
    && (p.failure == "" || p.failure == "restricted-vlan")
    && (p.timeout == "" || p.timeout == "success" || p.timeout == "failure" || p.timeout == "critical-vlan")
    && Grounded(p)
  }

  method Validate(p: Config) returns (ok: bool)
    ensures ok <==> Valid(p)
  {
    if p.order != STANDARD_ORDER && p.order != REVERSED_ORDER {
      return false;
    }
    var ids := [p.defaultVlan, p.restrictedVlan, p.criticalVlan, p.voiceVlan];
    for i := 0 to |ids|
      invariant forall j :: 0 <= j < i ==> VlanOk(ids[j])
    {
      if ids[i] < 0 || ids[i] > 4094 {
        assert !VlanOk(ids[i]);
        return false;
      }
    }
    assert VlanOk(ids[0]) && VlanOk(ids[1]) && VlanOk(ids[2]) && VlanOk(ids[3]);
    if (p.dot1x || p.mac) && p.defaultVlan == 0 {
      return false;
    }
    if p.maxSessions < 1 || (p.failure != "" && p.failure != "restricted-vlan") {
      return false;
    }
    if p.failure != "" && p.restrictedVlan == 0 {
      return false;
    }
    if p.timeout !in ["", "success", "failure", "critical-vlan"] {
      return false;
    }
    return !(p.timeout == "critical-vlan" && p.criticalVlan == 0);
  }

  // ---- requests ----

  function PathOf(k: Key): (p: seq<string>)
    ensures |p| == 1 || |p| == 2
  {
    match k
    case DefaultVlan => ["auth-default-vlan"]
    case RestrictedVlan => ["restricted-vlan"]
    case CriticalVlan => ["critical-vlan"]
    case VoiceVlan => ["voice-vlan"]
    case MaxSessions => ["max-sessions"]
    case Reauthentication => ["re-authentication"]
    case AuthOrder => ["auth-order"]
    case FailAction => ["fail-action"]
    case TimeoutAction => ["timeout-action"]
    case Dot1xEnable => ["dot1x", "enable"]
    case MacEnable => ["mac-authentication", "enable"]
    case MacDot1xDisable => ["mac-authentication", "dot1x-disable"]
    case MacDot1xOverride => ["mac-authentication", "dot1x-override"]
  }

  /** A request body: a plain leaf, or the nested form a setting takes. */
  datatype Body = Leaf(value: Value) | Choice(name: string, value: Value)

  /** A resource below the root, or a body for one leaf of a container. */
  datatype Content = Resource(path: seq<string>) | Patch(container: string, leaf: string, body: Body)

  predicate Resets(k: Key, v: Value) {
    || v == Number(0) || v == Text("") || (k == AuthOrder && v == Text(STANDARD_ORDER))
    || (v == Flag(false) && k != Dot1xEnable && k != MacEnable)
  }

  function RequestFor(k: Key, v: Value): (r: Request<Content>) {
    var path := PathOf(k);
    if Resets(k, v) then Request("DELETE", Resource(path))
    else if |path| == 2 then Request("PATCH", Patch(path[0], path[1], Leaf(v)))
    else
      var body :=
        if k == AuthOrder then Choice("mac-auth", Text("dot1x"))
        else if k == FailAction then Choice("fail-action", v)
        else if k == TimeoutAction && v.Text? then Choice(v.s, Flag(true))
        else Leaf(v);
      Request("PATCH", Patch("config", path[0], body))
  }

  /** What a configuration says for a leaf, by the leaf's own name. */
  function ConfigAt(p: Config, container: string, leaf: string): (v: Option<Value>) {
    if container == "config" then
      if leaf == "auth-default-vlan" then Some(Number(p.defaultVlan))
      else if leaf == "restricted-vlan" then Some(Number(p.restrictedVlan))
      else if leaf == "critical-vlan" then Some(Number(p.criticalVlan))
      else if leaf == "voice-vlan" then Some(Number(p.voiceVlan))
      else if leaf == "max-sessions" then Some(Number(p.maxSessions))
      else if leaf == "re-authentication" then Some(Flag(p.reauthentication))
      else if leaf == "auth-order" then Some(Text(p.order))
      else if leaf == "fail-action" then Some(Text(p.failure))
      else if leaf == "timeout-action" then Some(Text(p.timeout))
      else None
    else if container == "dot1x" then if leaf == "enable" then Some(Flag(p.dot1x)) else None
    else if container == "mac-authentication" then
      if leaf == "enable" then Some(Flag(p.mac))
      else if leaf == "dot1x-disable" then Some(Flag(p.macDot1xDisable))
      else if leaf == "dot1x-override" then Some(Flag(p.macDot1xOverride))
      else None
    else None
  }

  /** Each setting's value is the configuration's for the leaf it is written to. */
  lemma {:induction false} ValueAtLeaf(p: Config, k: Key)
    ensures var path := PathOf(k);
            Some(ValueOf(p, k)) == if |path| == 1 then ConfigAt(p, "config", path[0]) else ConfigAt(p, path[0], path[1])
  {
    match k
    case DefaultVlan =>
    case RestrictedVlan =>
    case CriticalVlan =>
    case VoiceVlan =>
    case MaxSessions =>
    case Reauthentication =>
    case AuthOrder =>
    case FailAction =>
    case TimeoutAction =>
    case Dot1xEnable =>
    case MacEnable =>
    case MacDot1xDisable =>
    case MacDot1xOverride =>
  }

  predicate Numeric(k: Key) { k.DefaultVlan? || k.RestrictedVlan? || k.CriticalVlan? || k.VoiceVlan? || k.MaxSessions? }

  predicate Textual(k: Key) { k.AuthOrder? || k.FailAction? || k.TimeoutAction? }

  /** What removing a setting leaves. */
  function DefaultOf(k: Key): (v: Value) {
    if k == AuthOrder then Text(STANDARD_ORDER) else if k == MaxSessions then Number(2)
    else if Numeric(k) then Number(0) else if Textual(k) then Text("") else Flag(false)
  }

  /** What a device makes of a body for a setting. */
  function Meaning(k: Key, body: Body): (v: Option<Value>) {
    if k == AuthOrder then if body == Choice("mac-auth", Text("dot1x")) then Some(Text(REVERSED_ORDER)) else None
    else if k == FailAction then if body.Choice? && body.name == "fail-action" then Some(body.value) else None
    else if k == TimeoutAction then if body.Choice? && body.value == Flag(true) then Some(Text(body.name)) else None
    else if body.Leaf? then Some(body.value) else None
  }

  /** The setting a container's leaf belongs to; settings of the container `config` itself
      are addressed by their leaf alone. */
  function KeyOf(container: string, leaf: string): (k: Option<Key>) {
    if container == "config" then
      if leaf == "auth-default-vlan" then Some(DefaultVlan)
      else if leaf == "restricted-vlan" then Some(RestrictedVlan)
      else if leaf == "critical-vlan" then Some(CriticalVlan)
      else if leaf == "voice-vlan" then Some(VoiceVlan)
      else if leaf == "max-sessions" then Some(MaxSessions)
      else if leaf == "re-authentication" then Some(Reauthentication)
      else if leaf == "auth-order" then Some(AuthOrder)
      else if leaf == "fail-action" then Some(FailAction)
      else if leaf == "timeout-action" then Some(TimeoutAction)
      else None
    else if container == "dot1x" then if leaf == "enable" then Some(Dot1xEnable) else None
    else if container == "mac-authentication" then
      if leaf == "enable" then Some(MacEnable)
      else if leaf == "dot1x-disable" then Some(MacDot1xDisable)
      else if leaf == "dot1x-override" then Some(MacDot1xOverride)
      else None
    else None
  }

  predicate Addresses(content: Content, k: Key) {
    match content
    case Resource(path) =>
      || (|path| == 1 && KeyOf("config", path[0]) == Some(k))
      || (|path| == 2 && path[0] != "config" && KeyOf(path[0], path[1]) == Some(k))
    case Patch(container, leaf, _) => KeyOf(container, leaf) == Some(k)
  }

  /** The change of one setting a request stands for. */
  ghost predicate Changes(r: Request<Content>, k: Key, v: Value) {
    && Addresses(r.content, k)
    && (r.content.Resource? ==> r.verb == "DELETE" && v == DefaultOf(k))
    && (r.content.Patch? ==> r.verb == "PATCH" && Meaning(k, r.content.body) == Some(v))
  }

  /** The values settings are given. */
  predicate Settable(k: Key, v: Value) {
    if k == MaxSessions then v.Number? && v.n >= 1
    else if Numeric(k) then v.Number?
    else if k == AuthOrder then v == Text(STANDARD_ORDER) || v == Text(REVERSED_ORDER)
    else if Textual(k) then v.Text?
    else v.Flag?
  }

  /** Where a setting is written is where it is looked for. */
  lemma {:induction false} PathKey(k: Key)
    ensures var p := PathOf(k);
            if |p| == 1 then KeyOf("config", p[0]) == Some(k) else p[0] != "config" && KeyOf(p[0], p[1]) == Some(k)
  {
    match k
    case DefaultVlan =>
    case RestrictedVlan =>
    case CriticalVlan =>
    case VoiceVlan =>
    case MaxSessions =>
    case Reauthentication =>
    case AuthOrder =>
    case FailAction =>
    case TimeoutAction =>
    case Dot1xEnable =>
    case MacEnable =>
    case MacDot1xDisable =>
    case MacDot1xOverride =>
  }

  lemma {:induction false} AddressesOne(k: Key, v: Value, j: Key)
    ensures Addresses(RequestFor(k, v).content, j) <==> j == k
  {
    hide PathOf, Resets, KeyOf;
    PathKey(k);
  }

  lemma {:induction false} RequestValue(k: Key, v: Value)
    requires Settable(k, v)
    ensures var r := RequestFor(k, v);
            && (r.content.Resource? ==> r.verb == "DELETE" && v == DefaultOf(k))
            && (r.content.Patch? ==> r.verb == "PATCH" && Meaning(k, r.content.body) == Some(v))
  {
  }

  /** Which settings are removed and which are written: enabling is always written, out or in,
      and so is a number of sessions; everything else is removed to get its default. */
  lemma {:induction false} RemovedExactly(k: Key, v: Value)
    requires Settable(k, v)
    ensures RequestFor(k, v).verb == "DELETE" <==>
            v == DefaultOf(k) && k != Dot1xEnable && k != MacEnable && k != MaxSessions
  {
    hide PathOf;
  }

  /** A request changes exactly the one setting it is for, to exactly the value meant. */
  lemma {:induction false} RequestMeans(k: Key, v: Value, j: Key, u: Value)
    requires Settable(k, v)
    ensures Changes(RequestFor(k, v), j, u) <==> j == k && u == v
  {
    hide PathOf, Addresses, RequestFor, Meaning, DefaultOf;
    AddressesOne(k, v, j);
    RequestValue(k, v);
  }
}
