/** The store updates outside the deploying transactions keep the integrity invariant too. */
module AdminTransitions {
  import opened Wrappers
  import opened Lists
  import opened Text
  import opened Entities
  import opened Operations
  import opened Integrity
  import opened Admin

  datatype AdminOp =
    | NodeCreate(node: Node) | NodeEdit(id: string, node: Node) | NodeDelete(id: string)
    | PlanCreate(plan: Plan) | PlanEdit(id: string, plan: Plan) | PlanDelete(id: string)
    | UserCreate(user: User) | UserEdit(id: string, user: User) | UserPlan(id: string, planId: string, user: User)
    | UserDelete(id: string)
    | UserAttach(id: string, inboundId: string, userId: string, credentialEnc: string)
    | UserDetach(inboundId: string, userId: string)
    | PeerCreate(peer: Peer) | PeerDelete(id: string)
    | TunnelCreate(tunnel: Tunnel) | TunnelStatus(id: string, status: string) | TunnelDelete(id: string)
    | ForwardCreate(forward: PortForward) | ForwardDelete(id: string)
    | AdminsChange(admins: seq<Administrator>)
    | Bookkeeping(next: State)

  ghost function Apply(st: State, op: AdminOp): Outcome<State> {
    match op
    case NodeCreate(n) => Ok(CreateNode(st, n))
    case NodeEdit(id, n) => EditNode(st, id, n)
    case NodeDelete(id) => DeleteNode(st, id)
    case PlanCreate(p) => CreatePlan(st, p)
    case PlanEdit(id, p) => EditPlan(st, id, p)
    case PlanDelete(id) => DeletePlan(st, id)
    case UserCreate(u) => CreateUser(st, u)
    case UserEdit(id, u) => EditUser(st, id, u)
    case UserPlan(id, planId, u) => ApplyPlan(st, id, planId, u)
    case UserDelete(id) => DeleteUser(st, id)
    case UserAttach(id, x, u, c) => Attach(st, id, x, u, c)
    case UserDetach(x, u) => Detach(st, x, u)
    case PeerCreate(p) => CreatePeer(st, p)
    case PeerDelete(id) => Ok(DeletePeer(st, id))
    case TunnelCreate(t) => CreateTunnel(st, t)
    case TunnelStatus(id, status) => Ok(SetTunnelStatus(st, id, status))
    case TunnelDelete(id) => Ok(DeleteTunnel(st, id))
    case ForwardCreate(f) => CreateForward(st, f)
    case ForwardDelete(id) => Ok(DeleteForward(st, id))
    case AdminsChange(admins) => Ok(SetAdmins(st, admins))
    case Bookkeeping(next) => Ok(next)
  }

  predicate Admissible(st: State, op: AdminOp) {
    match op
    case NodeCreate(n) => HexId(n.id) && NodeOf(st, n.id).None?
    case PlanCreate(p) => PlanOf(st, p.id).None?
    case UserCreate(u) => HexId(u.id) && UserOf(st, u.id).None?
    case _ => true
  }

  ghost predicate Books(st: State, op: AdminOp) {
    op.Bookkeeping? ==> SameReferences(st, op.next)
  }

  /** Larger sets of identifiers break no reference. */
  lemma MoreNodes(st: State, ns: seq<Node>)
    requires Inv(st) && Unique(ns, NodeKey) && NodesOk(ns)
    requires forall x | x in st.inbounds :: x.nodeId in Ids(ns, NodeKey)
    requires forall x | x in st.outbounds :: x.nodeId in Ids(ns, NodeKey)
    requires forall x | x in st.groups :: x.nodeId in Ids(ns, NodeKey)
    requires forall x | x in st.rules :: x.nodeId in Ids(ns, NodeKey)
    requires PeersOk(st.peers, UserIds(st), Ids(ns, NodeKey))
    requires LinksOk(st.tunnels, st.forwards, Ids(ns, NodeKey))
    ensures Inv(st.(nodes := ns))
  {
    var ids := Ids(ns, NodeKey);
    forall x | x in st.outbounds ensures OutboundOk(x, ids) { assert OutboundOk(x, NodeIds(st)); }
    forall g | g in st.groups ensures GroupOk(g, ids, st.outbounds) { assert GroupOk(g, NodeIds(st), st.outbounds); }
    forall r | r in st.rules ensures RuleOk(r, ids, UserIds(st), OutboundIds(st), st.inbounds, st.groups) {
      assert RuleFits(st, r);
    }
  }

  lemma NodesSuperset(st: State, ns: seq<Node>)
    requires Inv(st) && Unique(ns, NodeKey) && NodesOk(ns) && NodeIds(st) <= Ids(ns, NodeKey)
    ensures Inv(st.(nodes := ns))
  {
    forall x | x in st.outbounds ensures x.nodeId in Ids(ns, NodeKey) { assert OutboundOk(x, NodeIds(st)); }
    forall g | g in st.groups ensures g.nodeId in Ids(ns, NodeKey) { assert GroupOk(g, NodeIds(st), st.outbounds); }
    forall r | r in st.rules ensures r.nodeId in Ids(ns, NodeKey) { assert RuleFits(st, r); }
    MoreNodes(st, ns);
  }

  /** Where the records of a state with integrity lie. */
  lemma PlacesResolve(st: State)
    requires Inv(st)
    ensures forall x | x in st.outbounds :: x.nodeId in NodeIds(st)
    ensures forall g | g in st.groups :: g.nodeId in NodeIds(st)
    ensures forall r | r in st.rules :: r.nodeId in NodeIds(st)
  {
    forall x | x in st.outbounds ensures x.nodeId in NodeIds(st) { assert OutboundOk(x, NodeIds(st)); }
    forall g | g in st.groups ensures g.nodeId in NodeIds(st) { assert GroupOk(g, NodeIds(st), st.outbounds); }
    forall r | r in st.rules ensures r.nodeId in NodeIds(st) { assert RuleFits(st, r); }
  }

  lemma NodeDeleted(st: State, id: string)
    requires Inv(st) && DeleteNode(st, id).Ok?
    ensures Inv(DeleteNode(st, id).value)
  {
    var ns := Without(st.nodes, NodeKey, id);
    FindWithout(st.nodes, NodeKey, id);
    IdsWithout(st.nodes, NodeKey, id);
    PlacesResolve(st);
    assert !NodeUsed(st, id) && Ids(ns, NodeKey) == NodeIds(st) - {id};
    MoreNodes(st, ns);
  }

  lemma PlansChange(st: State, ps: seq<Plan>)
    requires Inv(st) && Unique(ps, PlanKey)
    requires forall u | u in st.users && u.planId != "" :: u.planId in Ids(ps, PlanKey)
    ensures Inv(st.(plans := ps))
  {
  }

  /** Users may grow in number or change in place, as long as identifiers stay. */
  lemma UsersChange(st: State, us: seq<User>)
    requires Inv(st) && Unique(us, UserKey) && UsersOk(us, PlanIds(st)) && UserIds(st) <= Ids(us, UserKey)
    ensures Inv(st.(users := us))
  {
    var ids := Ids(us, UserKey);
    forall r | r in st.rules ensures RuleOk(r, NodeIds(st), ids, OutboundIds(st), st.inbounds, st.groups) {
      assert RuleFits(st, r);
    }
  }

  lemma PutUserKeeps(st: State, id: string, y: User)
    requires Inv(st) && UserOf(st, id).Some? && y.id == id && (y.planId == "" || y.planId in PlanIds(st))
    requires forall x | x in st.users && x.id != id :: x.username != y.username
    ensures Inv(PutUser(st, id, y))
  {
    FindReplace(st.users, UserKey, id, y);
    IdsReplace(st.users, UserKey, id, y);
    UsersChange(st, Replace(st.users, UserKey, id, y));
  }

  lemma UserEdited(st: State, id: string, y: User)
    requires Inv(st) && EditUser(st, id, y).Ok?
    ensures Inv(EditUser(st, id, y).value)
  {
    var u := UserOf(st, id).value;
    IdsFind(st.plans, PlanKey, y.planId);
    var name := if Trim(y.username) != "" then Fold(y.username) else u.username;
    PutUserKeeps(st, id, y.(id := id, username := name, planId := if y.planId != "" then y.planId else u.planId));
  }

  lemma UserPlanApplied(st: State, id: string, planId: string, y: User)
    requires Inv(st) && ApplyPlan(st, id, planId, y).Ok?
    ensures Inv(ApplyPlan(st, id, planId, y).value)
  {
    var u := UserOf(st, id).value;
    IdsFind(st.plans, PlanKey, planId);
    PutUserKeeps(st, id, y.(id := id, username := u.username, planId := planId));
  }

  lemma RuleForgets(st: State, r: Rule, id: string, users: set<string>)
    requires RuleFits(st, r) && users == UserIds(st) - {id}
    ensures RuleOk(ForgetUser(r, id), NodeIds(st), users, OutboundIds(st), st.inbounds, st.groups)
  {
    FilterMembers(r.userIds, NotString(id));
  }

  lemma RulesForget(st: State, id: string, users: set<string>)
    requires Inv(st) && users == UserIds(st) - {id}
    ensures RulesOk(ForgetUserAll(st.rules, id), NodeIds(st), users, OutboundIds(st), st.inbounds, st.groups)
  {
    var rs := ForgetUserAll(st.rules, id);
    forall r | r in rs ensures RuleOk(r, NodeIds(st), users, OutboundIds(st), st.inbounds, st.groups) {
      var i :| 0 <= i < |rs| && rs[i] == r;
      assert st.rules[i] in st.rules && RuleFits(st, st.rules[i]);
      RuleForgets(st, st.rules[i], id, users);
    }
  }

  lemma ForgetKeepsIds(rs: seq<Rule>, id: string)
    requires Unique(rs, RuleKey)
    ensures Unique(ForgetUserAll(rs, id), RuleKey)
  {
  }

  lemma UserDeleted(st: State, id: string)
    requires Inv(st) && DeleteUser(st, id).Ok?
    ensures Inv(DeleteUser(st, id).value)
  {
    FindWithout(st.users, UserKey, id);
    IdsWithout(st.users, UserKey, id);
    FilterMembers(st.peers, PeerNotOf(id));
    FilterMembers(st.clients, ClientNotOf(id));
    ForgetKeepsIds(st.rules, id);
    RulesForget(st, id, Ids(Without(st.users, UserKey, id), UserKey));
  }

  lemma OutboundsSameIds(st: State, outs: seq<Outbound>)
    requires Inv(st) && |outs| == |st.outbounds|
    requires forall i | 0 <= i < |outs| :: outs[i] == st.outbounds[i].(health := outs[i].health)
    ensures Inv(st.(outbounds := outs))
  {
    assert Ids(outs, OutboundKey) == OutboundIds(st) by {
      assert forall i | 0 <= i < |outs| :: outs[i].id == st.outbounds[i].id;
    }
    forall id, n ensures Available(outs, n, id) == Available(st.outbounds, n, id) {
      SameKeys(st.outbounds, outs, OutboundKey, id);
    }
    forall x | x in outs ensures OutboundOk(x, NodeIds(st)) {
      var i :| 0 <= i < |outs| && outs[i] == x;
      assert st.outbounds[i] in st.outbounds && OutboundOk(st.outbounds[i], NodeIds(st));
    }
    OutboundsStayApart(st.outbounds, outs);
    forall g | g in st.groups ensures GroupOk(g, NodeIds(st), outs) {
      assert GroupOk(g, NodeIds(st), st.outbounds);
    }
  }

  lemma SameReferencesKeep(st: State, next: State)
    requires Inv(st) && SameReferences(st, next)
    ensures Inv(next)
  {
    UsersSame(st.users, next.users);
    UsersStayApart(st.users, next.users, PlanIds(st));
    UsersChange(st, next.users);
    var a := st.(users := next.users);
    forall c | c in next.clients ensures c.inboundId in InboundIds(a) && c.userId in UserIds(a) {
      var i :| 0 <= i < |next.clients| && next.clients[i] == c;
      assert st.clients[i] in st.clients;
    }
    ClientsReplaced(a, next.clients);
    var b := a.(clients := next.clients);
    forall p | p in next.peers ensures p.userId in UserIds(b) && p.nodeId in NodeIds(b) {
      var i :| 0 <= i < |next.peers| && next.peers[i] == p;
      assert st.peers[i] in st.peers;
    }
    PeersReplaced(b, next.peers);
    var c := b.(peers := next.peers);
    OutboundsSameIds(c, next.outbounds);
    assert next == c.(outbounds := next.outbounds);
  }

  lemma UsersSame(a: seq<User>, b: seq<User>)
    requires |b| == |a| && forall i | 0 <= i < |a| :: b[i].id == a[i].id
    ensures Ids(b, UserKey) == Ids(a, UserKey)
    ensures Unique(a, UserKey) ==> Unique(b, UserKey)
  {
  }

  lemma UsersStayApart(a: seq<User>, b: seq<User>, plans: set<string>)
    requires UsersOk(a, plans) && |b| == |a|
    requires forall i | 0 <= i < |a| ::
               b[i].id == a[i].id && b[i].username == a[i].username && b[i].planId == a[i].planId
    ensures UsersOk(b, plans)
  {
    forall x, y | x in b && y in b && x.id != y.id ensures x.username != y.username {
      var i :| 0 <= i < |b| && b[i] == x;
      var j :| 0 <= j < |b| && b[j] == y;
      assert a[i] in a && a[j] in a;
    }
    forall x | x in b ensures HexId(x.id) && (x.planId == "" || x.planId in plans) {
      var i :| 0 <= i < |b| && b[i] == x;
      assert a[i] in a;
    }
  }

  lemma OutboundsStayApart(a: seq<Outbound>, b: seq<Outbound>)
    requires forall x, y | x in a && y in a && x.id != y.id :: OutboundsApart(x, y)
    requires |b| == |a| && forall i | 0 <= i < |a| :: b[i] == a[i].(health := b[i].health)
    ensures forall x, y | x in b && y in b && x.id != y.id :: OutboundsApart(x, y)
  {
    forall x, y | x in b && y in b && x.id != y.id ensures OutboundsApart(x, y) {
      var i :| 0 <= i < |b| && b[i] == x;
      var j :| 0 <= j < |b| && b[j] == y;
      assert a[i] in a && a[j] in a && OutboundsApart(a[i], a[j]);
    }
  }

  lemma NodeCreated(st: State, n: Node)
    requires Inv(st) && HexId(n.id) && NodeOf(st, n.id).None?
    ensures Inv(CreateNode(st, n))
  {
    FindAppend(st.nodes, NodeKey, n);
    IdsAppend(st.nodes, NodeKey, n);
    NodesSuperset(st, st.nodes + [n]);
  }

  lemma NodeEdited(st: State, id: string, n: Node)
    requires Inv(st) && EditNode(st, id, n).Ok?
    ensures Inv(EditNode(st, id, n).value)
  {
    var y := n.(id := id);
    FindReplace(st.nodes, NodeKey, id, y);
    IdsReplace(st.nodes, NodeKey, id, y);
    NodesSuperset(st, Replace(st.nodes, NodeKey, id, y));
  }

  lemma PlanCreated(st: State, p: Plan)
    requires Inv(st) && PlanOf(st, p.id).None? && CreatePlan(st, p).Ok?
    ensures Inv(CreatePlan(st, p).value)
  {
    FindAppend(st.plans, PlanKey, p);
    IdsAppend(st.plans, PlanKey, p);
    PlansChange(st, st.plans + [p]);
  }

  lemma PlanEdited(st: State, id: string, p: Plan)
    requires Inv(st) && EditPlan(st, id, p).Ok?
    ensures Inv(EditPlan(st, id, p).value)
  {
    var y := p.(id := id);
    FindReplace(st.plans, PlanKey, id, y);
    IdsReplace(st.plans, PlanKey, id, y);
    PlansChange(st, Replace(st.plans, PlanKey, id, y));
  }

  lemma PlanDeleted(st: State, id: string)
    requires Inv(st) && DeletePlan(st, id).Ok?
    ensures Inv(DeletePlan(st, id).value)
  {
    FindWithout(st.plans, PlanKey, id);
    IdsWithout(st.plans, PlanKey, id);
    PlansChange(st, Without(st.plans, PlanKey, id));
  }

  lemma UsersAppended(us: seq<User>, u: User, plans: set<string>)
    requires UsersOk(us, plans) && HexId(u.id) && (u.planId == "" || u.planId in plans)
    requires forall x | x in us && x.id != "" :: x.username != u.username
    ensures UsersOk(us + [u], plans)
  {
    assert forall x | x in us :: HexId(x.id);
  }

  lemma UserCreated(st: State, u: User)
    requires Inv(st) && HexId(u.id) && UserOf(st, u.id).None? && CreateUser(st, u).Ok?
    ensures Inv(CreateUser(st, u).value)
  {
    IdsFind(st.plans, PlanKey, u.planId);
    FindAppend(st.users, UserKey, u);
    IdsAppend(st.users, UserKey, u);
    UsersAppended(st.users, u, PlanIds(st));
    UsersChange(st, st.users + [u]);
  }

  lemma ClientsReplaced(st: State, cs: seq<Client>)
    requires Inv(st) && BindingsOk(cs, InboundIds(st), UserIds(st))
    ensures Inv(st.(clients := cs))
  {
  }

  lemma PeersReplaced(st: State, ps: seq<Peer>)
    requires Inv(st) && PeersOk(ps, UserIds(st), NodeIds(st))
    ensures Inv(st.(peers := ps))
  {
  }

  lemma LinksReplaced(st: State, ts: seq<Tunnel>, fs: seq<PortForward>)
    requires Inv(st) && LinksOk(ts, fs, NodeIds(st))
    ensures Inv(st.(tunnels := ts, forwards := fs))
  {
  }

  lemma UserAttached(st: State, id: string, inboundId: string, userId: string, credentialEnc: string)
    requires Inv(st) && Attach(st, id, inboundId, userId, credentialEnc).Ok?
    ensures Inv(Attach(st, id, inboundId, userId, credentialEnc).value)
  {
    IdsFind(st.inbounds, InboundKey, inboundId);
    IdsFind(st.users, UserKey, userId);
    ClientsReplaced(st, Attach(st, id, inboundId, userId, credentialEnc).value.clients);
  }

  lemma UserDetached(st: State, inboundId: string, userId: string)
    requires Inv(st) && Detach(st, inboundId, userId).Ok?
    ensures Inv(Detach(st, inboundId, userId).value)
  {
    FilterMembers(st.clients, NotBinding(inboundId, userId));
    ClientsReplaced(st, Filter(st.clients, NotBinding(inboundId, userId)));
  }

  lemma PeerCreated(st: State, p: Peer)
    requires Inv(st) && CreatePeer(st, p).Ok?
    ensures Inv(CreatePeer(st, p).value)
  {
    IdsFind(st.nodes, NodeKey, p.nodeId);
    IdsFind(st.users, UserKey, p.userId);
    PeersReplaced(st, st.peers + [p]);
  }

  lemma PeerDeleted(st: State, id: string)
    requires Inv(st)
    ensures Inv(DeletePeer(st, id))
  {
    WithoutMembers(st.peers, PeerKey, id);
    PeersReplaced(st, Without(st.peers, PeerKey, id));
  }

  lemma LinksCreated(st: State, t: Tunnel, f: PortForward)
    requires Inv(st)
    ensures CreateTunnel(st, t).Ok? ==> Inv(CreateTunnel(st, t).value)
    ensures CreateForward(st, f).Ok? ==> Inv(CreateForward(st, f).value)
  {
    if CreateTunnel(st, t).Ok? {
      IdsFind(st.nodes, NodeKey, t.sourceNodeId);
      IdsFind(st.nodes, NodeKey, t.destinationNodeId);
      LinksReplaced(st, st.tunnels + [t], st.forwards);
    }
    if CreateForward(st, f).Ok? {
      IdsFind(st.nodes, NodeKey, f.nodeId);
      LinksReplaced(st, st.tunnels, st.forwards + [f]);
    }
  }

  lemma TunnelRestated(st: State, id: string, status: string)
    requires Inv(st)
    ensures Inv(SetTunnelStatus(st, id, status))
  {
    var k := IndexOf(st.tunnels, TunnelKey, id);
    var ts := SetTunnelStatus(st, id, status).tunnels;
    if k < |st.tunnels| { assert st.tunnels[k] in st.tunnels; }
    LinksReplaced(st, ts, st.forwards);
  }

  lemma LinksDeleted(st: State, id: string)
    requires Inv(st)
    ensures Inv(DeleteTunnel(st, id)) && Inv(DeleteForward(st, id))
  {
    WithoutMembers(st.tunnels, TunnelKey, id);
    WithoutMembers(st.forwards, ForwardKey, id);
    LinksReplaced(st, Without(st.tunnels, TunnelKey, id), st.forwards);
    LinksReplaced(st, st.tunnels, Without(st.forwards, ForwardKey, id));
  }

  /** Every other store update keeps the invariant. */
  lemma AdminKeepsInv(st: State, op: AdminOp)
    requires Inv(st) && Admissible(st, op) && Books(st, op) && Apply(st, op).Ok?
    ensures Inv(Apply(st, op).value)
  {
    match op
    case NodeCreate(n) => NodeCreated(st, n);
    case NodeEdit(id, n) => NodeEdited(st, id, n);
    case NodeDelete(id) => NodeDeleted(st, id);
    case PlanCreate(p) => PlanCreated(st, p);
    case PlanEdit(id, p) => PlanEdited(st, id, p);
    case PlanDelete(id) => PlanDeleted(st, id);
    case UserCreate(u) => UserCreated(st, u);
    case UserEdit(id, u) => UserEdited(st, id, u);
    case UserPlan(id, planId, u) => UserPlanApplied(st, id, planId, u);
    case UserDelete(id) => UserDeleted(st, id);
    case UserAttach(id, x, u, c) => UserAttached(st, id, x, u, c);
    case UserDetach(x, u) => UserDetached(st, x, u);
    case PeerCreate(p) => PeerCreated(st, p);
    case PeerDelete(id) => PeerDeleted(st, id);
    case TunnelCreate(t) => LinksCreated(st, t, PortForward("", "", 0));
    case TunnelStatus(id, status) => TunnelRestated(st, id, status);
    case TunnelDelete(id) => LinksDeleted(st, id);
    case ForwardCreate(f) => LinksCreated(st, Tunnel("", "", "", ""), f);
    case ForwardDelete(id) => LinksDeleted(st, id);
    case AdminsChange(_) => assert Inv(SetAdmins(st, op.admins));
    case Bookkeeping(next) => SameReferencesKeep(st, next);
  }
}
