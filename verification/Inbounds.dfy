/** Closures of internal/panel/inbound_lifecycle.go and inbound_hardening.go: each is what one Store.Update applies. */
module Inbounds {
  import opened Wrappers
  import opened Lists
  import opened Text
  import opened Entities

  datatype InboundInput = InboundInput(name: string, protocol: string, nodeId: string, listen: string, port: int,
                                       transport: string, tlsMode: string, enabled: bool, settings: string)

  predicate ValidProtocol(p: string) {
    p == "vless" || p == "vmess" || p == "trojan" || p == "shadowsocks"
  }

  function DefaultString(v: string, d: string): string {
    if Trim(v) == "" then d else v
  }

  /** normalizeInboundInput, up to the fields folded into `settings`. */
  function Normalize(raw: InboundInput): Outcome<InboundInput> {
    var x := raw.(name := Trim(raw.name), protocol := Lower(Trim(raw.protocol)),
                  listen := DefaultString(Trim(raw.listen), "0.0.0.0"),
                  transport := DefaultString(Lower(Trim(raw.transport)), "tcp"),
                  tlsMode := DefaultString(Lower(Trim(raw.tlsMode)), "none"));
    if x.name == "" || !ValidProtocol(x.protocol) then Err(InvalidInput)
    else if x.transport != "tcp" && x.transport != "ws" && x.transport != "grpc" then Err(InvalidInput)
    else if x.tlsMode != "none" && x.tlsMode != "tls" && x.tlsMode != "reality" then Err(InvalidInput)
    else if x.port < 1 || x.port > 65535 then Err(InvalidInput)
    else if x.tlsMode == "reality" && ((x.protocol != "vless" && x.protocol != "trojan") || x.transport != "tcp") then
      Err(InvalidInput)
    else Ok(x)
  }

  /** The scan of validateInboundTargetSpec; with `checkName` false it is the scan of validateInboundTarget. */
  function Clash(xs: seq<Inbound>, skip: string, checkName: bool, name: string, nodeId: string,
                 listen: string, port: int): (e: Option<Error>)
    ensures e.None? <==> forall x | x in xs && x.id != skip ::
                           && (checkName ==> Fold(x.name) != Fold(name))
                           && !(x.nodeId == nodeId && x.port == port && x.listen == listen)
  {
    if xs == [] then None
    else
      assert xs == [xs[0]] + xs[1..];
      var x := xs[0];
      if x.id == skip then Clash(xs[1..], skip, checkName, name, nodeId, listen, port)
      else if checkName && Fold(x.name) == Fold(name) then Some(NameTaken)
      else if x.nodeId == nodeId && x.port == port && x.listen == listen then Some(ListenTaken)
      else Clash(xs[1..], skip, checkName, name, nodeId, listen, port)
  }

  /** validateInboundTargetSpec and validateInboundTarget */
  function ValidateTarget(st: State, skip: string, checkName: bool, name: string, nodeId: string,
                          listen: string, port: int): Option<Error> {
    match NodeForWork(st, nodeId)
    case Some(e) => Some(e)
    case None => Clash(st.inbounds, skip, checkName, name, nodeId, listen, port)
  }

  /** validateInboundReferenceChange */
  function ReferenceChange(rules: seq<Rule>, id: string, nodeId: string, enabled: bool,
                           deleting: bool): (e: Option<Error>)
    ensures e.None? <==> forall r | r in rules && id in r.inboundIds ::
                           !deleting && r.nodeId == nodeId && (r.enabled ==> enabled)
  {
    if rules == [] then None
    else
      assert rules == [rules[0]] + rules[1..];
      var r := rules[0];
      if id !in r.inboundIds then ReferenceChange(rules[1..], id, nodeId, enabled, deleting)
      else if deleting then Some(InUseByRule)
      else if r.nodeId != nodeId then Some(MoveBlocked)
      else if !enabled && r.enabled then Some(DisableBlocked)
      else ReferenceChange(rules[1..], id, nodeId, enabled, deleting)
  }

  /** inboundFromCreate */
  function FromInput(id: string, x: InboundInput, now: Time): Inbound {
    Inbound(id, x.name, x.protocol, x.nodeId, x.listen, x.port, x.transport, x.tlsMode, true, "configured",
            x.settings, "", "", now, now)
  }

  function Create(st: State, obj: Inbound): Outcome<State> {
    match ValidateTarget(st, "", true, obj.name, obj.nodeId, obj.listen, obj.port)
    case Some(e) => Err(e)
    case None => Ok(st.(inbounds := st.inbounds + [obj]))
  }

  function UndoCreate(st: State, id: string): Outcome<State> {
    Ok(st.(inbounds := Without(st.inbounds, InboundKey, id)))
  }

  /** applyInboundInput */
  function Apply(x: Inbound, y: InboundInput, now: Time): Inbound {
    x.(name := y.name, protocol := y.protocol, nodeId := y.nodeId, listen := y.listen, port := y.port,
       transport := y.transport, tlsMode := y.tlsMode, enabled := y.enabled, settings := y.settings,
       realityKey := if y.tlsMode != "reality" then "" else x.realityKey, updatedAt := now)
  }

  function Put(st: State, id: string, y: Inbound): State {
    st.(inbounds := Replace(st.inbounds, InboundKey, id, y))
  }

  function Update(st: State, id: string, y: InboundInput, now: Time): Outcome<State> {
    match InboundOf(st, id)
    case None => Err(NotFound)
    case Some(x) =>
      match ValidateTarget(st, id, true, y.name, y.nodeId, y.listen, y.port)
      case Some(e) => Err(e)
      case None =>
        match ReferenceChange(st.rules, id, y.nodeId, y.enabled, false)
        case Some(e) => Err(e)
        case None => Ok(Put(st, id, Apply(x, y, now)))
  }

  function SetEnabled(st: State, id: string, enabled: bool, now: Time): Outcome<State> {
    match InboundOf(st, id)
    case None => Err(NotFound)
    case Some(x) =>
      var bad := if enabled then ValidateTarget(st, x.id, false, x.name, x.nodeId, x.listen, x.port) else None;
      if bad.Some? then Err(bad.value)
      else
        match ReferenceChange(st.rules, id, x.nodeId, enabled, false)
        case Some(e) => Err(e)
        case None => Ok(Put(st, id, x.(enabled := enabled, status := if enabled then "configured" else "disabled",
                                       updatedAt := now)))
  }

  /** restoreInboundSnapshot */
  function Restore(st: State, id: string, before: Inbound): Outcome<State> {
    if InboundOf(st, id).None? then Err(Vanished) else Ok(Put(st, id, before))
  }

  function ClientOf(id: string): Client -> bool {
    (c: Client) => c.inboundId != id
  }

  function Delete(st: State, id: string): Outcome<State> {
    match InboundOf(st, id)
    case None => Err(NotFound)
    case Some(x) =>
      match ReferenceChange(st.rules, id, x.nodeId, false, true)
      case Some(e) => Err(e)
      case None => Ok(st.(inbounds := Without(st.inbounds, InboundKey, id),
                          clients := Filter(st.clients, ClientOf(id))))
  }

  function UndoDelete(st: State, id: string, before: Inbound, index: nat, clients: seq<Client>): Outcome<State> {
    var inbounds := if InboundOf(st, id).Some? then st.inbounds
                    else if index > |st.inbounds| then st.inbounds + [before]
                    else InsertAt(st.inbounds, index, before);
    Ok(st.(inbounds := inbounds, clients := clients))
  }
}
