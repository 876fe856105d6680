/** Closures of internal/panel/routing_transaction.go and the validators of routing.go they call. */
module Rules {
  import opened Wrappers
  import opened Lists
  import opened Text
  import opened Entities
  import Groups

  function LowerAll(xs: seq<string>): seq<string> {
    seq(|xs|, i requires 0 <= i < |xs| => Lower(Trim(xs[i])))
  }

  /** normalizeRoutingRule */
  function Normalize(raw: Rule): Outcome<Rule> {
    var m := raw.matcher;
    var r := raw.(name := Trim(raw.name), nodeId := Trim(raw.nodeId), outboundId := Trim(raw.outboundId),
                  groupId := Trim(raw.groupId),
                  matcher := Matcher(TrimAll(m.domains), TrimAll(m.ips), Trim(m.ports), Lower(Trim(m.network)),
                                     LowerAll(m.protocols)));
    if r.name == "" || r.nodeId == "" then Err(InvalidInput)
    else if (r.outboundId == "") == (r.groupId == "") then Err(InvalidInput)
    else if r.matcher.network !in ["", "tcp", "udp", "tcp,udp"] then Err(InvalidInput)
    else Ok(r)
  }

  function TargetError(st: State, r: Rule): Option<Error> {
    if r.groupId != "" then
      match GroupOf(st, r.groupId)
      case None => Some(TargetUnavailable)
      case Some(g) => if g.nodeId != r.nodeId || !g.enabled then Some(TargetUnavailable) else None
    else if Groups.BuiltIn(r.outboundId) then None
    else
      match OutboundOf(st, r.outboundId)
      case None => Some(TargetUnavailable)
      case Some(o) => if o.nodeId != r.nodeId || !o.enabled then Some(TargetUnavailable) else None
  }

  predicate InboundsOnNode(st: State, nodeId: string, ids: seq<string>) {
    forall id | id in ids :: InboundOf(st, id).Some? && InboundOf(st, id).value.nodeId == nodeId
  }

  predicate UsersExist(st: State, ids: seq<string>) {
    forall id | id in ids :: UserOf(st, id).Some?
  }

  /** validateRoutingReferences */
  function Validate(st: State, r: Rule): Option<Error> {
    if NodeOf(st, r.nodeId).None? then Some(NodeMissing)
    else if TargetError(st, r).Some? then TargetError(st, r)
    else if !InboundsOnNode(st, r.nodeId, r.inboundIds) then Some(InboundElsewhere)
    else if !UsersExist(st, r.userIds) then Some(UserMissing)
    else None
  }

  function Create(st: State, r: Rule): Outcome<State> {
    match Validate(st, r)
    case Some(e) => Err(e)
    case None => Ok(st.(rules := st.rules + [r]))
  }

  function UndoCreate(st: State, id: string): Outcome<State> {
    Ok(st.(rules := Without(st.rules, RuleKey, id)))
  }

  function Put(st: State, id: string, r: Rule): State {
    st.(rules := Replace(st.rules, RuleKey, id, r))
  }

  function Update(st: State, id: string, y: Rule, now: Time): Outcome<State> {
    match RuleOf(st, id)
    case None => Err(NotFound)
    case Some(x) =>
      var r := y.(id := x.id, createdAt := x.createdAt, updatedAt := now);
      match Validate(st, r)
      case Some(e) => Err(e)
      case None => Ok(Put(st, id, r))
  }

  function Restore(st: State, id: string, before: Rule): Outcome<State> {
    if RuleOf(st, id).None? then Err(Vanished) else Ok(Put(st, id, before))
  }

  function Delete(st: State, id: string): Outcome<State> {
    if RuleOf(st, id).None? then Err(NotFound)
    else Ok(st.(rules := Without(st.rules, RuleKey, id)))
  }

  function UndoDelete(st: State, id: string, before: Rule, index: nat): Outcome<State> {
    if RuleOf(st, id).Some? then Ok(st)
    else if index > |st.rules| then Ok(st.(rules := st.rules + [before]))
    else Ok(st.(rules := InsertAt(st.rules, index, before)))
  }
}
