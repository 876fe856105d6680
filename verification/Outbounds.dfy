/** Closures and validators of internal/panel/outbound_control.go. */
module Outbounds {
  import opened Wrappers
  import opened Lists
  import opened Text
  import opened Entities
  import Groups

  datatype OutboundInput = OutboundInput(name: string, nodeId: string, tag: string, protocol: string,
                                         settings: string, enabled: bool)

  predicate TagChar(c: char) {
    'A' <= c <= 'Z' || 'a' <= c <= 'z' || '0' <= c <= '9' || c == '_' || c == '.' || c == '-'
  }

  /** xrayTagPattern, without the built-in tags. */
  predicate ValidTag(tag: string) {
    && 1 <= |tag| <= 40
    && (forall i | 0 <= i < |tag| :: TagChar(tag[i]))
    && tag != "direct" && tag != "blocked" && tag != "api"
  }

  predicate ValidProtocol(p: string) {
    p in ["freedom", "blackhole", "socks", "http", "vless", "vmess", "trojan", "wireguard", "tor", "openvpn",
          "custom", "shadowsocks"]
  }

  /** The part of normalizeOutboundInput that is common to all protocols. */
  function Normalize(raw: OutboundInput): Outcome<OutboundInput> {
    var x := raw.(name := Trim(raw.name), nodeId := Trim(raw.nodeId), tag := Trim(raw.tag),
                  protocol := Lower(Trim(raw.protocol)));
    if x.name == "" || x.nodeId == "" || !ValidTag(x.tag) || !ValidProtocol(x.protocol) then Err(InvalidInput)
    else Ok(x)
  }

  /** Tags under these prefixes name balancers and their members. */
  predicate Reserved(tag: string) {
    HasPrefix(Fold(tag), "gbm-") || HasPrefix(Fold(tag), "gb-bal-")
  }

  /** The scan of validateOutboundTargetSpec. */
  function Clash(xs: seq<Outbound>, skip: string, name: string, nodeId: string, tag: string): (e: Option<Error>)
    ensures e.None? <==> forall x | x in xs && x.id != skip && x.nodeId == nodeId ::
                           Fold(x.tag) != Fold(tag) && Fold(x.name) != Fold(name)
  {
    if xs == [] then None
    else
      assert xs == [xs[0]] + xs[1..];
      var x := xs[0];
      if x.id != skip && x.nodeId == nodeId && Fold(x.tag) == Fold(tag) then Some(TagTaken)
      else if x.id != skip && x.nodeId == nodeId && Fold(x.name) == Fold(name) then Some(NameTaken)
      else Clash(xs[1..], skip, name, nodeId, tag)
  }

  /** validateOutboundTargetSpec */
  function ValidateTarget(st: State, skip: string, name: string, nodeId: string, tag: string): Option<Error> {
    match NodeForWork(st, nodeId)
    case Some(e) => Some(e)
    case None => if Reserved(tag) then Some(TagReserved) else Clash(st.outbounds, skip, name, nodeId, tag)
  }

  const UNCHECKED := Health("unknown", 0, "", 0, 0, 0, "")

  function FromInput(id: string, x: OutboundInput, passwordEnc: string, now: Time): Outbound {
    Outbound(id, x.name, x.nodeId, x.tag, x.protocol, x.settings, passwordEnc, UNCHECKED, true, now, now)
  }

  function Create(st: State, obj: Outbound): Outcome<State> {
    match ValidateTarget(st, "", obj.name, obj.nodeId, obj.tag)
    case Some(e) => Err(e)
    case None => Ok(st.(outbounds := st.outbounds + [obj]))
  }

  function UndoCreate(st: State, id: string): Outcome<State> {
    Ok(st.(outbounds := Without(st.outbounds, OutboundKey, id)))
  }

  function Put(st: State, id: string, y: Outbound): State {
    st.(outbounds := Replace(st.outbounds, OutboundKey, id, y))
  }

  function Apply(x: Outbound, y: OutboundInput, passwordEnc: string, now: Time): Outbound {
    x.(name := y.name, nodeId := y.nodeId, tag := y.tag, protocol := y.protocol, settings := y.settings,
       passwordEnc := passwordEnc, health := UNCHECKED, enabled := y.enabled, updatedAt := now)
  }

  /** The group references are checked; the routing rules are not, as in the source. */
  function Update(st: State, id: string, y: OutboundInput, passwordEnc: string, now: Time): Outcome<State> {
    match OutboundOf(st, id)
    case None => Err(NotFound)
    case Some(x) =>
      match ValidateTarget(st, id, y.name, y.nodeId, y.tag)
      case Some(e) => Err(e)
      case None =>
        match Groups.ReferenceChange(st.groups, id, y.nodeId, y.enabled)
        case Some(e) => Err(e)
        case None => Ok(Put(st, id, Apply(x, y, passwordEnc, now)))
  }

  function Restore(st: State, id: string, before: Outbound): Outcome<State> {
    if OutboundOf(st, id).None? then Err(Vanished) else Ok(Put(st, id, before))
  }

  predicate Targeted(rules: seq<Rule>, id: string, enabledOnly: bool) {
    exists r :: r in rules && r.outboundId == id && (enabledOnly ==> r.enabled)
  }

  function SetEnabled(st: State, id: string, enabled: bool, now: Time): Outcome<State> {
    match OutboundOf(st, id)
    case None => Err(NotFound)
    case Some(x) =>
      var bad := if enabled then ValidateTarget(st, id, x.name, x.nodeId, x.tag)
                 else if Targeted(st.rules, id, true) then Some(InUseByRule)
                 else Groups.ReferenceChange(st.groups, id, x.nodeId, false);
      if bad.Some? then Err(bad.value)
      else Ok(Put(st, id, x.(enabled := enabled, updatedAt := now)))
  }

  /** The rollback of setOutboundEnabledTransactional restores the flag and stamps the record again. */
  function UndoSetEnabled(st: State, id: string, before: bool, now: Time): Outcome<State> {
    match OutboundOf(st, id)
    case None => Err(Vanished)
    case Some(x) => Ok(Put(st, id, x.(enabled := before, updatedAt := now)))
  }

  function Delete(st: State, id: string): Outcome<State> {
    match OutboundOf(st, id)
    case None => Err(NotFound)
    case Some(x) =>
      if Targeted(st.rules, id, false) then Err(InUseByRule)
      else
        match Groups.ReferenceChange(st.groups, id, x.nodeId, false)
        case Some(e) => Err(e)
        case None => Ok(st.(outbounds := Without(st.outbounds, OutboundKey, id)))
  }

  function UndoDelete(st: State, id: string, before: Outbound, index: nat): Outcome<State> {
    if OutboundOf(st, id).Some? then Ok(st)
    else if index > |st.outbounds| then Ok(st.(outbounds := st.outbounds + [before]))
    else Ok(st.(outbounds := InsertAt(st.outbounds, index, before)))
  }
}
