/** The fourteen deploying transactions: what the first Store.Update applies, which nodes are deployed and what the
    rollback applies. */
module Operations {
  import opened Wrappers
  import opened Lists
  import opened Text
  import opened Entities
  import Inbounds
  import Outbounds
  import Groups
  import Rules

  datatype Operation =
    | CreateInbound(id: string, inbound: Inbounds.InboundInput)
    | UpdateInbound(id: string, inbound: Inbounds.InboundInput)
    | EnableInbound(id: string, on: bool)
    | DeleteInbound(id: string)
    | CreateOutbound(id: string, outbound: Outbounds.OutboundInput, passwordEnc: string)
    | UpdateOutbound(id: string, outbound: Outbounds.OutboundInput, passwordEnc: string)
    | EnableOutbound(id: string, on: bool)
    | DeleteOutbound(id: string)
    | CreateGroup(id: string, group: Group)
    | UpdateGroup(id: string, group: Group)
    | DeleteGroup(id: string)
    | CreateRule(id: string, rule: Rule)
    | UpdateRule(id: string, rule: Rule)
    | DeleteRule(id: string)

  predicate HexDigit(c: char) {
    '0' <= c <= '9' || 'a' <= c <= 'f'
  }

  /** randomHex(12) */
  predicate HexId(s: string) {
    |s| == 24 && forall i | 0 <= i < |s| :: HexDigit(s[i])
  }

  /** randomHex never repeats an identifier in use. */
  predicate Fresh(st: State, op: Operation) {
    match op
    case CreateInbound(id, _) => HexId(id) && InboundOf(st, id).None?
    case CreateOutbound(id, _, _) => HexId(id) && OutboundOf(st, id).None?
    case CreateGroup(id, _) => HexId(id) && GroupOf(st, id).None?
    case CreateRule(id, _) => HexId(id) && RuleOf(st, id).None?
    case _ => true
  }

  /** The handler's normalization, then the closure of the first Store.Update. */
  function Forward(st: State, op: Operation, now: Time): Outcome<State> {
    match op
    case CreateInbound(id, x) =>
      (match Inbounds.Normalize(x)
       case Err(e) => Err(e)
       case Ok(y) => Inbounds.Create(st, Inbounds.FromInput(id, y, now)))
    case UpdateInbound(id, x) =>
      (match Inbounds.Normalize(x)
       case Err(e) => Err(e)
       case Ok(y) => Inbounds.Update(st, id, y, now))
    case EnableInbound(id, on) => Inbounds.SetEnabled(st, id, on, now)
    case DeleteInbound(id) => Inbounds.Delete(st, id)
    case CreateOutbound(id, x, secret) =>
      (match Outbounds.Normalize(x)
       case Err(e) => Err(e)
       case Ok(y) => Outbounds.Create(st, Outbounds.FromInput(id, y, secret, now)))
    case UpdateOutbound(id, x, secret) =>
      (match Outbounds.Normalize(x)
       case Err(e) => Err(e)
       case Ok(y) => Outbounds.Update(st, id, y, secret, now))
    case EnableOutbound(id, on) => Outbounds.SetEnabled(st, id, on, now)
    case DeleteOutbound(id) => Outbounds.Delete(st, id)
    case CreateGroup(id, x) =>
      (match Groups.Normalize(x)
       case Err(e) => Err(e)
       case Ok(y) => Groups.Create(st, y.(id := id, enabled := true, createdAt := now, updatedAt := now)))
    case UpdateGroup(id, x) =>
      (match Groups.Normalize(x)
       case Err(e) => Err(e)
       case Ok(y) => Groups.Update(st, id, y, now))
    case DeleteGroup(id) => Groups.Delete(st, id)
    case CreateRule(id, x) =>
      (match Rules.Normalize(x)
       case Err(e) => Err(e)
       case Ok(y) => Rules.Create(st, y.(id := id, enabled := true, createdAt := now, updatedAt := now)))
    case UpdateRule(id, x) =>
      (match Rules.Normalize(x)
       case Err(e) => Err(e)
       case Ok(y) => Rules.Update(st, id, y, now))
    case DeleteRule(id) => Rules.Delete(st, id)
  }

  /** inboundDeployOrder, outboundDeployOrder and routingDeployOrder */
  function DeployOrder(from: string, to: string): seq<string> {
    if from == "" then (if to == "" then [] else [to])
    else if to == "" || from == to then [from]
    else [from, to]
  }

  function InboundNode(st: State, id: string): string {
    match InboundOf(st, id) case None => "" case Some(x) => x.nodeId
  }

  function OutboundNode(st: State, id: string): string {
    match OutboundOf(st, id) case None => "" case Some(x) => x.nodeId
  }

  function GroupNode(st: State, id: string): string {
    match GroupOf(st, id) case None => "" case Some(x) => x.nodeId
  }

  function RuleNode(st: State, id: string): string {
    match RuleOf(st, id) case None => "" case Some(x) => x.nodeId
  }

  /** The nodes a transaction deploys, from the state before it. */
  function DeployNodes(st: State, op: Operation): seq<string> {
    match op
    case CreateInbound(_, x) => [x.nodeId]
    case UpdateInbound(id, x) => DeployOrder(InboundNode(st, id), x.nodeId)
    case EnableInbound(id, _) => [InboundNode(st, id)]
    case DeleteInbound(id) => [InboundNode(st, id)]
    case CreateOutbound(_, x, _) => [Trim(x.nodeId)]
    case UpdateOutbound(id, x, _) => DeployOrder(OutboundNode(st, id), Trim(x.nodeId))
    case EnableOutbound(id, _) => [OutboundNode(st, id)]
    case DeleteOutbound(id) => [OutboundNode(st, id)]
    case CreateGroup(_, x) => [Trim(x.nodeId)]
    case UpdateGroup(id, x) => DeployOrder(GroupNode(st, id), Trim(x.nodeId))
    case DeleteGroup(id) => [GroupNode(st, id)]
    case CreateRule(_, x) => [Trim(x.nodeId)]
    case UpdateRule(id, x) => DeployOrder(RuleNode(st, id), Trim(x.nodeId))
    case DeleteRule(id) => [RuleNode(st, id)]
  }

  /** Outbound and group transactions use deployOutboundNode, the others deployXrayNode. */
  predicate SyncsNative(op: Operation) {
    op.CreateOutbound? || op.UpdateOutbound? || op.EnableOutbound? || op.DeleteOutbound? ||
    op.CreateGroup? || op.UpdateGroup? || op.DeleteGroup?
  }

  predicate IsUpdate(op: Operation) {
    op.UpdateInbound? || op.UpdateOutbound? || op.UpdateGroup? || op.UpdateRule?
  }

  /** The closure of the rollback Store.Update: `before` is the state the first closure captured its values from,
      `st` the store when the rollback runs. */
  function Backward(before: State, op: Operation, now: Time, st: State): Outcome<State> {
    match op
    case CreateInbound(id, _) => Inbounds.UndoCreate(st, id)
    case UpdateInbound(id, _) =>
      (match InboundOf(before, id) case None => Err(Vanished) case Some(x) => Inbounds.Restore(st, id, x))
    case EnableInbound(id, _) =>
      (match InboundOf(before, id) case None => Err(Vanished) case Some(x) => Inbounds.Restore(st, id, x))
    case DeleteInbound(id) =>
      (match InboundOf(before, id)
       case None => Err(Vanished)
       case Some(x) => Inbounds.UndoDelete(st, id, x, IndexOf(before.inbounds, InboundKey, id), before.clients))
    case CreateOutbound(id, _, _) => Outbounds.UndoCreate(st, id)
    case UpdateOutbound(id, _, _) =>
      (match OutboundOf(before, id) case None => Err(Vanished) case Some(x) => Outbounds.Restore(st, id, x))
    case EnableOutbound(id, _) =>
      (match OutboundOf(before, id)
       case None => Err(Vanished)
       case Some(x) => Outbounds.UndoSetEnabled(st, id, x.enabled, now))
    case DeleteOutbound(id) =>
      (match OutboundOf(before, id)
       case None => Err(Vanished)
       case Some(x) => Outbounds.UndoDelete(st, id, x, IndexOf(before.outbounds, OutboundKey, id)))
    case CreateGroup(id, _) => Groups.UndoCreate(st, id)
    case UpdateGroup(id, _) =>
      (match GroupOf(before, id) case None => Err(Vanished) case Some(x) => Groups.Restore(st, id, x))
    case DeleteGroup(id) =>
      (match GroupOf(before, id)
       case None => Err(Vanished)
       case Some(x) => Groups.UndoDelete(st, id, x, IndexOf(before.groups, GroupKey, id)))
    case CreateRule(id, _) => Rules.UndoCreate(st, id)
    case UpdateRule(id, _) =>
      (match RuleOf(before, id) case None => Err(Vanished) case Some(x) => Rules.Restore(st, id, x))
    case DeleteRule(id) =>
      (match RuleOf(before, id)
       case None => Err(Vanished)
       case Some(x) => Rules.UndoDelete(st, id, x, IndexOf(before.rules, RuleKey, id)))
  }
}
