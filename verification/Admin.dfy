/** The remaining store updates that touch references: nodes, plans, users, bindings, peers, tunnels and forwards
    (internal/panel/server.go, reference_safety.go, xray.go, accounting.go, operations.go). */
module Admin {
  import opened Wrappers
  import opened Lists
  import opened Text
  import opened Entities
  import opened Subscriptions
  import opened Compiler

  // ---------- nodes ----------

  function CreateNode(st: State, n: Node): State {
    st.(nodes := st.nodes + [n])
  }

  /** Edit, enable, disable, maintenance and probe results: any field but the identifier. */
  function EditNode(st: State, id: string, y: Node): Outcome<State> {
    if NodeOf(st, id).None? then Err(NotFound)
    else Ok(st.(nodes := Replace(st.nodes, NodeKey, id, y.(id := id))))
  }

  /** validateNodeDeleteReferences */
  ghost predicate NodeUsed(st: State, id: string) {
    || (exists t :: t in st.tunnels && (t.sourceNodeId == id || t.destinationNodeId == id))
    || (exists x :: x in st.inbounds && x.nodeId == id)
    || (exists x :: x in st.outbounds && x.nodeId == id)
    || (exists x :: x in st.groups && x.nodeId == id)
    || (exists x :: x in st.rules && x.nodeId == id)
    || (exists x :: x in st.forwards && x.nodeId == id)
    || (exists x :: x in st.peers && x.nodeId == id)
  }

  ghost function DeleteNode(st: State, id: string): Outcome<State> {
    if NodeOf(st, id).None? then Err(NotFound)
    else if NodeUsed(st, id) then Err(NodeInUse)
    else Ok(st.(nodes := Without(st.nodes, NodeKey, id)))
  }

  // ---------- plans ----------

  predicate PlanNameTaken(st: State, skip: string, name: string) {
    exists p :: p in st.plans && p.id != skip && Lower(p.name) == Lower(name)
  }

  function CreatePlan(st: State, p: Plan): Outcome<State> {
    if PlanNameTaken(st, "", p.name) then Err(NameTaken) else Ok(st.(plans := st.plans + [p]))
  }

  function EditPlan(st: State, id: string, y: Plan): Outcome<State> {
    if PlanOf(st, id).None? then Err(NotFound)
    else if PlanNameTaken(st, id, y.name) then Err(NameTaken)
    else Ok(st.(plans := Replace(st.plans, PlanKey, id, y.(id := id))))
  }

  function DeletePlan(st: State, id: string): Outcome<State> {
    if PlanOf(st, id).None? then Err(NotFound)
    else if exists u :: u in st.users && u.planId == id then Err(InUseByUser)
    else Ok(st.(plans := Without(st.plans, PlanKey, id)))
  }

  // ---------- users ----------

  predicate UsernameTaken(st: State, skip: string, name: string) {
    exists u :: u in st.users && u.id != skip && u.username == name
  }

  function PlanError(st: State, planId: string): Option<Error> {
    if planId == "" then None
    else
      match PlanOf(st, planId)
      case None => Some(PlanMissing)
      case Some(p) => if p.enabled then None else Some(PlanDisabled)
  }

  /** The closure of user creation; the expiry and status it computes are in `u` already. */
  function CreateUser(st: State, u: User): Outcome<State> {
    if UsernameTaken(st, "", u.username) then Err(NameTaken)
    else if PlanError(st, u.planId).Some? then Err(PlanError(st, u.planId).value)
    else Ok(st.(users := st.users + [u]))
  }

  function PutUser(st: State, id: string, u: User): State {
    st.(users := Replace(st.users, UserKey, id, u))
  }

  /** Editing a user: an empty username or plan leaves the old one; the other fields are those of `y`. */
  function EditUser(st: State, id: string, y: User): Outcome<State> {
    match UserOf(st, id)
    case None => Err(NotFound)
    case Some(u) =>
      var name := Fold(y.username);
      if Trim(y.username) != "" && UsernameTaken(st, id, name) then Err(NameTaken)
      else if PlanError(st, y.planId).Some? then Err(PlanError(st, y.planId).value)
      else Ok(PutUser(st, id, y.(id := id, username := if Trim(y.username) != "" then name else u.username,
                                 planId := if y.planId != "" then y.planId else u.planId)))
  }

  /** The apply-plan action; enable, disable, renew and reset-traffic change no reference. */
  function ApplyPlan(st: State, id: string, planId: string, y: User): Outcome<State> {
    match UserOf(st, id)
    case None => Err(NotFound)
    case Some(u) =>
      match PlanOf(st, planId)
      case None => Err(PlanMissing)
      case Some(p) =>
        if !p.enabled then Err(PlanDisabled)
        else Ok(PutUser(st, id, y.(id := id, username := u.username, planId := p.id)))
  }

  function NotString(id: string): string -> bool { (x: string) => x != id }
  function ClientNotOf(userId: string): Client -> bool { (c: Client) => c.userId != userId }
  function PeerNotOf(userId: string): Peer -> bool { (p: Peer) => p.userId != userId }

  function ForgetUser(r: Rule, userId: string): Rule {
    r.(userIds := Filter(r.userIds, NotString(userId)))
  }

  function ForgetUserAll(rs: seq<Rule>, userId: string): (r: seq<Rule>)
    ensures |r| == |rs| && forall i | 0 <= i < |rs| :: r[i] == ForgetUser(rs[i], userId)
  {
    if rs == [] then [] else [ForgetUser(rs[0], userId)] + ForgetUserAll(rs[1..], userId)
  }

  /** Deleting a user cascades to peers, bindings and the user lists of routing rules. */
  function DeleteUser(st: State, id: string): Outcome<State> {
    if UserOf(st, id).None? then Err(NotFound)
    else Ok(st.(users := Without(st.users, UserKey, id), peers := Filter(st.peers, PeerNotOf(id)),
                clients := Filter(st.clients, ClientNotOf(id)), rules := ForgetUserAll(st.rules, id)))
  }

  // ---------- bindings ----------

  predicate Attached(st: State, inboundId: string, userId: string) {
    exists c :: c in st.clients && c.inboundId == inboundId && c.userId == userId
  }

  /** attachUserToInbound: the check under the read lock and the append, run without interleaving. */
  function Attach(st: State, id: string, inboundId: string, userId: string, credentialEnc: string): Outcome<State> {
    if InboundOf(st, inboundId).None? then Err(NotFound)
    else
      match UserOf(st, userId)
      case None => Err(UserMissing)
      case Some(u) =>
        if u.status != "active" then Err(NotActive)
        else if Attached(st, inboundId, userId) then Err(AlreadyAttached)
        else
          Ok(st.(clients := st.clients + [Client(id, inboundId, userId, UserLabel(u.username), credentialEnc, true)]))
  }

  function NotBinding(inboundId: string, userId: string): Client -> bool {
    (c: Client) => !(c.inboundId == inboundId && c.userId == userId)
  }

  function Detach(st: State, inboundId: string, userId: string): Outcome<State> {
    if InboundOf(st, inboundId).None? then Err(NotFound)
    else Ok(st.(clients := Filter(st.clients, NotBinding(inboundId, userId))))
  }

  // ---------- peers, tunnels, forwards ----------

  function Devices(peers: seq<Peer>, userId: string): nat {
    if peers == [] then 0 else (if peers[0].userId == userId then 1 else 0) + Devices(peers[1..], userId)
  }

  /** createWGPeer, once an address was chosen and the agent answered. */
  function CreatePeer(st: State, p: Peer): Outcome<State> {
    match UserOf(st, p.userId)
    case None => Err(UserMissing)
    case Some(u) =>
      if NodeOf(st, p.nodeId).None? then Err(NodeMissing)
      else if Devices(st.peers, p.userId) >= EffectiveDeviceLimit(st, u) then Err(DeviceLimitReached)
      else Ok(st.(peers := st.peers + [p]))
  }

  function DeletePeer(st: State, id: string): State {
    st.(peers := Without(st.peers, PeerKey, id))
  }

  function CreateTunnel(st: State, t: Tunnel): Outcome<State> {
    if NodeOf(st, t.sourceNodeId).None? || NodeOf(st, t.destinationNodeId).None? then Err(NodeMissing)
    else if t.sourceNodeId == t.destinationNodeId then Err(InvalidInput)
    else if NodeForWork(st, t.sourceNodeId).Some? then Err(NodeForWork(st, t.sourceNodeId).value)
    else if NodeForWork(st, t.destinationNodeId).Some? then Err(NodeForWork(st, t.destinationNodeId).value)
    else Ok(st.(tunnels := st.tunnels + [t]))
  }

  /** tunnelAction: the status after starting or stopping; a tunnel that is gone is left alone. */
  function SetTunnelStatus(st: State, id: string, status: string): State {
    match Find(st.tunnels, TunnelKey, id)
    case None => st
    case Some(t) => st.(tunnels := Replace(st.tunnels, TunnelKey, id, t.(status := status)))
  }

  /** Setup, creation and deletion of panel accounts. */
  function SetAdmins(st: State, admins: seq<Administrator>): State {
    st.(admins := admins)
  }

  function DeleteTunnel(st: State, id: string): State {
    st.(tunnels := Without(st.tunnels, TunnelKey, id))
  }

  function CreateForward(st: State, f: PortForward): Outcome<State> {
    if NodeOf(st, f.nodeId).None? then Err(NodeMissing) else Ok(st.(forwards := st.forwards + [f]))
  }

  function DeleteForward(st: State, id: string): State {
    st.(forwards := Without(st.forwards, ForwardKey, id))
  }
}
