/** The whole-state integrity invariant of the panel. */
module Integrity {
  import opened Wrappers
  import opened Lists
  import opened Text
  import opened Entities
  import Inbounds
  import Outbounds
  import Groups
  import Rules
  import opened Operations

  function MemberKey(m: Member): string { m.outboundId }

  ghost predicate IdsUnique(st: State) {
    && Unique(st.nodes, NodeKey) && Unique(st.plans, PlanKey) && Unique(st.users, UserKey)
    && Unique(st.inbounds, InboundKey) && Unique(st.outbounds, OutboundKey)
    && Unique(st.groups, GroupKey) && Unique(st.rules, RuleKey)
  }

  /** Identifiers are non-empty hexadecimal strings; a user's plan exists; usernames are distinct. */
  ghost predicate UsersOk(us: seq<User>, plans: set<string>) {
    && (forall u | u in us :: HexId(u.id) && (u.planId == "" || u.planId in plans))
    && (forall a, b | a in us && b in us && a.id != b.id :: a.username != b.username)
  }

  ghost predicate NodesOk(ns: seq<Node>) {
    forall n | n in ns :: HexId(n.id)
  }

  predicate SameSocket(a: Inbound, b: Inbound) {
    a.nodeId == b.nodeId && a.port == b.port && a.listen == b.listen
  }

  predicate InboundsApart(a: Inbound, b: Inbound) {
    !SameSocket(a, b) && Fold(a.name) != Fold(b.name)
  }

  ghost predicate InboundsOk(xs: seq<Inbound>, nodes: set<string>) {
    && (forall x | x in xs :: HexId(x.id) && x.nodeId in nodes)
    && (forall a, b | a in xs && b in xs && a.id != b.id :: InboundsApart(a, b))
  }

  predicate TagOk(tag: string) {
    Outbounds.ValidTag(tag) && !Outbounds.Reserved(tag)
  }

  predicate OutboundOk(x: Outbound, nodes: set<string>) {
    HexId(x.id) && x.nodeId in nodes && TagOk(x.tag)
  }

  predicate OutboundsApart(a: Outbound, b: Outbound) {
    a.nodeId == b.nodeId ==> Fold(a.tag) != Fold(b.tag) && Fold(a.name) != Fold(b.name)
  }

  ghost predicate OutboundsOk(xs: seq<Outbound>, nodes: set<string>) {
    && (forall x | x in xs :: OutboundOk(x, nodes))
    && (forall a, b | a in xs && b in xs && a.id != b.id :: OutboundsApart(a, b))
  }

  /** The outbound exists on the node and is enabled. */
  predicate Available(outs: seq<Outbound>, nodeId: string, id: string) {
    match Find(outs, OutboundKey, id) case None => false case Some(o) => o.nodeId == nodeId && o.enabled
  }

  ghost predicate GroupOk(g: Group, nodes: set<string>, outs: seq<Outbound>) {
    && HexId(g.id) && g.nodeId in nodes
    && Unique(g.members, MemberKey)
    && (forall m | m in g.members :: Available(outs, g.nodeId, m.outboundId))
    && (Groups.BuiltIn(g.fallback) || (Available(outs, g.nodeId, g.fallback) && !Groups.HasMember(g, g.fallback)))
  }

  predicate GroupsApart(a: Group, b: Group) {
    a.nodeId == b.nodeId ==> Fold(a.name) != Fold(b.name)
  }

  ghost predicate GroupsOk(gs: seq<Group>, nodes: set<string>, outs: seq<Outbound>) {
    && (forall g | g in gs :: GroupOk(g, nodes, outs))
    && (forall a, b | a in gs && b in gs && a.id != b.id :: GroupsApart(a, b))
  }

  /** A rule's group is on its node, and enabled if the rule is; a rule's outbound exists. */
  predicate RuleTargetOk(r: Rule, outs: set<string>, gs: seq<Group>) {
    if r.groupId != "" then
      && r.outboundId == ""
      && (match Find(gs, GroupKey, r.groupId)
          case None => false
          case Some(g) => g.nodeId == r.nodeId && (r.enabled ==> g.enabled))
    else r.outboundId != "" && (Groups.BuiltIn(r.outboundId) || r.outboundId in outs)
  }

  predicate OnNode(ins: seq<Inbound>, nodeId: string, id: string) {
    match Find(ins, InboundKey, id) case None => false case Some(x) => x.nodeId == nodeId
  }

  ghost predicate RuleOk(r: Rule, nodes: set<string>, users: set<string>, outs: set<string>, ins: seq<Inbound>,
                         gs: seq<Group>) {
    && r.nodeId in nodes && RuleTargetOk(r, outs, gs)
    && (forall id | id in r.inboundIds :: OnNode(ins, r.nodeId, id))
    && (forall id | id in r.userIds :: id in users)
  }

  ghost predicate RulesOk(rs: seq<Rule>, nodes: set<string>, users: set<string>, outs: set<string>, ins: seq<Inbound>,
                          gs: seq<Group>) {
    forall r | r in rs :: RuleOk(r, nodes, users, outs, ins, gs)
  }

  ghost predicate BindingsOk(cs: seq<Client>, ins: set<string>, users: set<string>) {
    forall c | c in cs :: c.inboundId in ins && c.userId in users
  }

  ghost predicate PeersOk(ps: seq<Peer>, users: set<string>, nodes: set<string>) {
    forall p | p in ps :: p.userId in users && p.nodeId in nodes
  }

  ghost predicate LinksOk(ts: seq<Tunnel>, fs: seq<PortForward>, nodes: set<string>) {
    && (forall t | t in ts :: t.sourceNodeId in nodes && t.destinationNodeId in nodes)
    && (forall f | f in fs :: f.nodeId in nodes)
  }

  function NodeIds(st: State): set<string> { Ids(st.nodes, NodeKey) }
  function UserIds(st: State): set<string> { Ids(st.users, UserKey) }
  function PlanIds(st: State): set<string> { Ids(st.plans, PlanKey) }
  function InboundIds(st: State): set<string> { Ids(st.inbounds, InboundKey) }
  function OutboundIds(st: State): set<string> { Ids(st.outbounds, OutboundKey) }

  /** Every reference in the state resolves, and what must be unique is unique. */
  ghost predicate Inv(st: State) {
    && IdsUnique(st)
    && NodesOk(st.nodes)
    && UsersOk(st.users, PlanIds(st))
    && InboundsOk(st.inbounds, NodeIds(st))
    && OutboundsOk(st.outbounds, NodeIds(st))
    && GroupsOk(st.groups, NodeIds(st), st.outbounds)
    && RulesOk(st.rules, NodeIds(st), UserIds(st), OutboundIds(st), st.inbounds, st.groups)
    && BindingsOk(st.clients, InboundIds(st), UserIds(st))
    && PeersOk(st.peers, UserIds(st), NodeIds(st))
    && LinksOk(st.tunnels, st.forwards, NodeIds(st))
  }

  // ---------- live targets ----------

  /** An enabled rule that names an outbound finds it on its node, enabled. */
  predicate LiveOutbound(outs: seq<Outbound>, r: Rule) {
    r.enabled && r.groupId == "" && !Groups.BuiltIn(r.outboundId) ==> Available(outs, r.nodeId, r.outboundId)
  }

  ghost predicate AllLive(st: State) {
    forall r | r in st.rules :: LiveOutbound(st.outbounds, r)
  }

  // ---------- sets of identifiers after a change ----------

  lemma IdsAppend<T>(xs: seq<T>, key: T -> string, y: T)
    ensures Ids(xs + [y], key) == Ids(xs, key) + {key(y)}
  {
    forall i | 0 <= i < |xs| ensures key(xs[i]) in Ids(xs + [y], key) { assert (xs + [y])[i] == xs[i]; }
    assert (xs + [y])[|xs|] == y;
  }

  lemma IdsReplace<T>(xs: seq<T>, key: T -> string, id: string, y: T)
    requires key(y) == id
    ensures Ids(Replace(xs, key, id, y), key) == Ids(xs, key)
    ensures forall x | x in Replace(xs, key, id, y) :: x == y || (x in xs && (Unique(xs, key) ==> key(x) != id))
  {
    var r := Replace(xs, key, id, y);
    forall i | 0 <= i < |xs| ensures key(r[i]) == key(xs[i]) {}
    assert forall i | 0 <= i < |xs| :: key(xs[i]) in Ids(r, key);
  }

  lemma IdsWithout<T>(xs: seq<T>, key: T -> string, id: string)
    ensures Ids(Without(xs, key, id), key) == Ids(xs, key) - {id}
    ensures forall x | x in Without(xs, key, id) :: x in xs
  {
    var r := Without(xs, key, id);
    WithoutMembers(xs, key, id);
    forall j | j in Ids(xs, key) && j != id ensures j in Ids(r, key) {
      var i :| 0 <= i < |xs| && key(xs[i]) == j;
      var x := xs[i];
      assert x in xs && x in r;
    }
    forall j | j in Ids(r, key) ensures j in Ids(xs, key) - {id} {
      var i :| 0 <= i < |r| && key(r[i]) == j;
      assert r[i] in r && r[i] in xs;
    }
  }

  // ---------- one record changes ----------

  lemma AppendInbound(st: State, y: Inbound)
    requires Inv(st) && InboundOf(st, y.id).None? && HexId(y.id) && y.nodeId in NodeIds(st)
    requires forall x | x in st.inbounds :: InboundsApart(x, y) && InboundsApart(y, x)
    ensures Inv(st.(inbounds := st.inbounds + [y]))
  {
    FindAppend(st.inbounds, InboundKey, y);
    IdsAppend(st.inbounds, InboundKey, y);
  }

  lemma PutInbound(st: State, id: string, y: Inbound)
    requires Inv(st) && InboundOf(st, id).Some? && y.id == id && y.nodeId in NodeIds(st)
    requires forall x | x in st.inbounds && x.id != id :: InboundsApart(x, y) && InboundsApart(y, x)
    requires forall r | r in st.rules && id in r.inboundIds :: r.nodeId == y.nodeId
    ensures Inv(Inbounds.Put(st, id, y))
  {
    FindReplace(st.inbounds, InboundKey, id, y);
    IdsReplace(st.inbounds, InboundKey, id, y);
  }

  lemma DropInbound(st: State, id: string)
    requires Inv(st) && forall r | r in st.rules :: id !in r.inboundIds
    ensures Inv(st.(inbounds := Without(st.inbounds, InboundKey, id),
            clients := Filter(st.clients, Inbounds.ClientOf(id))))
  {
    var ins := Without(st.inbounds, InboundKey, id);
    FindWithout(st.inbounds, InboundKey, id);
    IdsWithout(st.inbounds, InboundKey, id);
    FilterMembers(st.clients, Inbounds.ClientOf(id));
    forall r | r in st.rules ensures RuleOk(r, NodeIds(st), UserIds(st), OutboundIds(st), ins, st.groups) {
      assert RuleFits(st, r);
    }
  }

  lemma AppendOutbound(st: State, y: Outbound)
    requires Inv(st) && OutboundOf(st, y.id).None? && OutboundOk(y, NodeIds(st))
    requires forall x | x in st.outbounds :: OutboundsApart(x, y) && OutboundsApart(y, x)
    ensures Inv(st.(outbounds := st.outbounds + [y]))
  {
    FindAppend(st.outbounds, OutboundKey, y);
    IdsAppend(st.outbounds, OutboundKey, y);
  }

  lemma PutOutbound(st: State, id: string, y: Outbound)
    requires Inv(st) && OutboundOf(st, id).Some? && y.id == id && OutboundOk(y, NodeIds(st))
    requires forall x | x in st.outbounds && x.id != id :: OutboundsApart(x, y) && OutboundsApart(y, x)
    requires forall g | g in st.groups && Groups.References(g, id) :: y.enabled && g.nodeId == y.nodeId
    ensures Inv(Outbounds.Put(st, id, y))
  {
    var outs := Replace(st.outbounds, OutboundKey, id, y);
    FindReplace(st.outbounds, OutboundKey, id, y);
    IdsReplace(st.outbounds, OutboundKey, id, y);
    forall g | g in st.groups ensures GroupOk(g, NodeIds(st), outs) {
      forall m | m in g.members ensures Available(outs, g.nodeId, m.outboundId) {
        if m.outboundId == id { assert Groups.References(g, id); }
      }
    }
  }

  lemma DropOutbound(st: State, id: string)
    requires Inv(st)
    requires forall r | r in st.rules :: r.outboundId != id
    requires forall g | g in st.groups :: !Groups.References(g, id)
    ensures Inv(st.(outbounds := Without(st.outbounds, OutboundKey, id)))
  {
    var outs := Without(st.outbounds, OutboundKey, id);
    FindWithout(st.outbounds, OutboundKey, id);
    IdsWithout(st.outbounds, OutboundKey, id);
    forall g | g in st.groups ensures GroupOk(g, NodeIds(st), outs) {
      assert !Groups.References(g, id);
    }
  }

  lemma AppendGroup(st: State, y: Group)
    requires Inv(st) && GroupOf(st, y.id).None? && GroupOk(y, NodeIds(st), st.outbounds)
    requires forall x | x in st.groups :: GroupsApart(x, y) && GroupsApart(y, x)
    ensures Inv(st.(groups := st.groups + [y]))
  {
    FindAppend(st.groups, GroupKey, y);
  }

  lemma PutGroup(st: State, id: string, y: Group)
    requires Inv(st) && GroupOf(st, id).Some? && y.id == id && GroupOk(y, NodeIds(st), st.outbounds)
    requires forall x | x in st.groups && x.id != id :: GroupsApart(x, y) && GroupsApart(y, x)
    requires forall r | r in st.rules && r.groupId == id :: r.nodeId == y.nodeId && (r.enabled ==> y.enabled)
    ensures Inv(Groups.Put(st, id, y))
  {
    FindReplace(st.groups, GroupKey, id, y);
    IdsReplace(st.groups, GroupKey, id, y);
  }

  lemma DropGroup(st: State, id: string)
    requires Inv(st) && forall r | r in st.rules :: r.groupId != id
    ensures Inv(st.(groups := Without(st.groups, GroupKey, id)))
  {
    FindWithout(st.groups, GroupKey, id);
    IdsWithout(st.groups, GroupKey, id);
  }

  ghost predicate RuleFits(st: State, r: Rule) {
    RuleOk(r, NodeIds(st), UserIds(st), OutboundIds(st), st.inbounds, st.groups)
  }

  lemma AppendRule(st: State, y: Rule)
    requires Inv(st) && RuleOf(st, y.id).None? && RuleFits(st, y)
    ensures Inv(st.(rules := st.rules + [y]))
  {
    FindAppend(st.rules, RuleKey, y);
  }

  lemma PutRule(st: State, id: string, y: Rule)
    requires Inv(st) && RuleOf(st, id).Some? && y.id == id && RuleFits(st, y)
    ensures Inv(Rules.Put(st, id, y))
  {
    FindReplace(st.rules, RuleKey, id, y);
    IdsReplace(st.rules, RuleKey, id, y);
  }

  lemma DropRule(st: State, id: string)
    requires Inv(st)
    ensures Inv(st.(rules := Without(st.rules, RuleKey, id)))
  {
    FindWithout(st.rules, RuleKey, id);
    IdsWithout(st.rules, RuleKey, id);
  }
}
