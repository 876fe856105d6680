/** When the remaining store updates accept, and what they store: compared with the integrity of the new state. */
module AdminAcceptance {
  import opened Wrappers
  import opened Lists
  import opened Text
  import opened Entities
  import opened Integrity
  import opened Operations
  import opened Admin
  import opened AdminTransitions

  ghost predicate Ready(st: State, nodeId: string) {
    exists n :: n in st.nodes && n.id == nodeId && n.enabled && !n.maintenance
  }

  /** The plan, if one is named, exists and is enabled. */
  ghost predicate PlanUsable(st: State, planId: string) {
    planId == "" || exists p :: p in st.plans && p.id == planId && p.enabled
  }

  lemma PlanErrorExact(st: State, planId: string)
    requires Unique(st.plans, PlanKey)
    ensures PlanError(st, planId).None? <==> PlanUsable(st, planId)
  {
    forall p | p in st.plans ensures PlanOf(st, p.id) == Some(p) { UniqueIn(st.plans, PlanKey, p); }
  }

  /** Main result: a node is deleted if and only if nothing refers to it. */
  lemma NodeDeleteExact(st: State, id: string)
    requires Inv(st) && NodeOf(st, id).Some?
    ensures var next := st.(nodes := Filter(st.nodes, Other(NodeKey, id)));
            if Inv(next) then DeleteNode(st, id) == Ok(next) else DeleteNode(st, id).Err?
  {
    var next := st.(nodes := Without(st.nodes, NodeKey, id));
    WithoutFilters(st.nodes, NodeKey, id);
    if DeleteNode(st, id).Ok? { NodeDeleted(st, id); }
    if Inv(next) {
      FindWithout(st.nodes, NodeKey, id);
      IdsWithout(st.nodes, NodeKey, id);
      PlacesResolve(next);
    }
  }

  /** Main result: a plan is deleted if and only if no user has it. */
  lemma PlanDeleteExact(st: State, id: string)
    requires Inv(st) && PlanOf(st, id).Some? && id != ""
    ensures var next := st.(plans := Filter(st.plans, Other(PlanKey, id)));
            if Inv(next) then DeletePlan(st, id) == Ok(next) else DeletePlan(st, id).Err?
  {
    WithoutFilters(st.plans, PlanKey, id);
    if DeletePlan(st, id).Ok? { PlanDeleted(st, id); }
    IdsWithout(st.plans, PlanKey, id);
  }

  /** Main result: a user is created if and only if the named plan is usable and the new state keeps its integrity. */
  lemma UserCreateExact(st: State, u: User)
    requires Inv(st) && HexId(u.id) && UserOf(st, u.id).None?
    ensures var next := st.(users := st.users + [u]);
            if PlanUsable(st, u.planId) && Inv(next) then CreateUser(st, u) == Ok(next) else CreateUser(st, u).Err?
  {
    var next := st.(users := st.users + [u]);
    PlanErrorExact(st, u.planId);
    if CreateUser(st, u).Ok? { UserCreated(st, u); }
    if Inv(next) {
      forall x | x in st.users ensures x.username != u.username {
        assert x in next.users && u in next.users;
      }
    }
  }

  lemma NameFree(us: seq<User>, u: User, v: User, plans: set<string>)
    requires u in us && v.id == u.id && UsersOk(Overwritten(us, UserKey, u.id, v), plans)
    ensures forall x | x in us && x.id != u.id :: x.username != v.username
  {
    var i, vs :| 0 <= i < |us| && us[i] == u && vs == Overwritten(us, UserKey, u.id, v);
    forall x | x in us && x.id != u.id ensures x.username != v.username {
      var j :| 0 <= j < |us| && us[j] == x;
      assert vs[j] == x && vs[i] == v && vs[i] in vs && vs[j] in vs;
    }
  }

  /** Main result: an edit keeps name and plan where the input leaves them blank, and is accepted if and only if the
      named plan is usable and the new state keeps its integrity. */
  lemma UserEditExact(st: State, u: User, y: User)
    requires Inv(st) && u in st.users
    ensures var v := y.(id := u.id, username := if Trim(y.username) == "" then u.username else Lower(Trim(y.username)),
                        planId := if y.planId == "" then u.planId else y.planId);
            var next := st.(users := Overwritten(st.users, UserKey, u.id, v));
            if PlanUsable(st, y.planId) && Inv(next) then EditUser(st, u.id, y) == Ok(next)
            else EditUser(st, u.id, y).Err?
  {
    var v := y.(id := u.id, username := if Trim(y.username) == "" then u.username else Fold(y.username),
                planId := if y.planId == "" then u.planId else y.planId);
    var next := st.(users := Overwritten(st.users, UserKey, u.id, v));
    UniqueIn(st.users, UserKey, u);
    ReplaceOverwrites(st.users, UserKey, u.id, v);
    PlanErrorExact(st, y.planId);
    if EditUser(st, u.id, y).Ok? { UserEdited(st, u.id, y); }
    if Inv(next) { NameFree(st.users, u, v, PlanIds(st)); }
  }

  /** Main result: applying a plan needs the plan enabled and changes neither identifier nor name. */
  lemma PlanApplyExact(st: State, u: User, planId: string, y: User)
    requires Inv(st) && u in st.users && planId != ""
    ensures var v := y.(id := u.id, username := u.username, planId := planId);
            if PlanUsable(st, planId) then ApplyPlan(st, u.id, planId, y) ==
                                           Ok(st.(users := Overwritten(st.users, UserKey, u.id, v)))
            else ApplyPlan(st, u.id, planId, y).Err?
  {
    UniqueIn(st.users, UserKey, u);
    PlanErrorExact(st, planId);
    ReplaceOverwrites(st.users, UserKey, u.id, y.(id := u.id, username := u.username, planId := planId));
  }

  /** Main result: a user is attached if and only if the new state keeps its integrity, the user is active and has no
      binding on the inbound yet; the binding is enabled and labelled with the username. */
  lemma AttachExact(st: State, id: string, inboundId: string, u: User, credentialEnc: string)
    requires Inv(st) && u in st.users
    ensures var c := Client(id, inboundId, u.id, "gb:" + u.username, credentialEnc, true);
            var next := st.(clients := st.clients + [c]);
            if Inv(next) && u.status == "active" &&
               forall b | b in st.clients :: b.inboundId != inboundId || b.userId != u.id
            then Attach(st, id, inboundId, u.id, credentialEnc) == Ok(next)
            else Attach(st, id, inboundId, u.id, credentialEnc).Err?
  {
    var c := Client(id, inboundId, u.id, "gb:" + u.username, credentialEnc, true);
    var next := st.(clients := st.clients + [c]);
    UniqueIn(st.users, UserKey, u);
    IdsFind(st.inbounds, InboundKey, inboundId);
    if Attach(st, id, inboundId, u.id, credentialEnc).Ok? { UserAttached(st, id, inboundId, u.id, credentialEnc); }
    assert c in next.clients;
  }

  ghost function BoundElsewhere(inboundId: string, userId: string): Client -> bool {
    (c: Client) => c.inboundId != inboundId || c.userId != userId
  }

  lemma DetachExact(st: State, inboundId: string, userId: string)
    ensures Detach(st, inboundId, userId) ==
            if exists x :: x in st.inbounds && x.id == inboundId
            then Ok(st.(clients := Filter(st.clients, BoundElsewhere(inboundId, userId)))) else Err(NotFound)
  {
    SameFilter(st.clients, NotBinding(inboundId, userId), BoundElsewhere(inboundId, userId));
  }

  ghost function ClientOfOthers(userId: string): Client -> bool { (c: Client) => c.userId != userId }
  ghost function PeerOfOthers(userId: string): Peer -> bool { (p: Peer) => p.userId != userId }
  ghost function NotThis(userId: string): string -> bool { (id: string) => id != userId }

  /** Main result: deleting a user removes it, its bindings, its peers and its place in every rule, and nothing else. */
  lemma UserDeleteExact(st: State, u: User)
    requires Inv(st) && u in st.users
    ensures DeleteUser(st, u.id).Ok?
    ensures var next := DeleteUser(st, u.id).value;
            && next == st.(users := Filter(st.users, Other(UserKey, u.id)), rules := next.rules,
                           clients := Filter(st.clients, ClientOfOthers(u.id)),
                           peers := Filter(st.peers, PeerOfOthers(u.id)))
            && |next.rules| == |st.rules|
            && forall i | 0 <= i < |st.rules| ::
                 next.rules[i] == st.rules[i].(userIds := Filter(st.rules[i].userIds, NotThis(u.id)))
  {
    WithoutFilters(st.users, UserKey, u.id);
    SameFilter(st.clients, ClientNotOf(u.id), ClientOfOthers(u.id));
    SameFilter(st.peers, PeerNotOf(u.id), PeerOfOthers(u.id));
    forall i | 0 <= i < |st.rules|
      ensures Filter(st.rules[i].userIds, NotString(u.id)) == Filter(st.rules[i].userIds, NotThis(u.id))
    {
      SameFilter(st.rules[i].userIds, NotString(u.id), NotThis(u.id));
    }
  }

  /** Main result: a tunnel joins two different nodes that are ready. */
  lemma TunnelCreateExact(st: State, t: Tunnel)
    requires Unique(st.nodes, NodeKey)
    ensures var ok := Ready(st, t.sourceNodeId) && Ready(st, t.destinationNodeId) &&
                      t.sourceNodeId != t.destinationNodeId;
            if ok then CreateTunnel(st, t) == Ok(st.(tunnels := st.tunnels + [t])) else CreateTunnel(st, t).Err?
  {
    forall n | n in st.nodes ensures NodeOf(st, n.id) == Some(n) { UniqueIn(st.nodes, NodeKey, n); }
  }
}
