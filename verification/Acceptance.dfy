/** The validators reject exactly the changes that would break the integrity invariant, and those that a few explicit
    policies forbid: in both directions, so that no check is missing and none is too strict. */
module Acceptance {
  import opened Wrappers
  import opened Lists
  import opened Entities
  import Inbounds
  import Outbounds
  import Groups
  import Rules
  import opened Operations
  import opened Integrity
  import opened Transitions

  /** Policy: the node is there, enabled and not in maintenance. */
  predicate NodeReady(st: State, nodeId: string) {
    match NodeOf(st, nodeId) case None => false case Some(n) => n.enabled && !n.maintenance
  }

  lemma ReadyIsForWork(st: State, nodeId: string)
    ensures NodeReady(st, nodeId) <==> NodeForWork(st, nodeId).None?
  {
  }

  // ---------- inbounds ----------

  predicate OnEnabledRule(rules: seq<Rule>, inboundId: string) {
    exists r :: r in rules && inboundId in r.inboundIds && r.enabled
  }

  lemma InboundCreateExact(st: State, y: Inbound)
    requires Inv(st) && InboundOf(st, y.id).None? && HexId(y.id)
    ensures Inbounds.Create(st, y).Ok? <==>
            NodeReady(st, y.nodeId) && Inv(st.(inbounds := st.inbounds + [y]))
  {
    ReadyIsForWork(st, y.nodeId);
    if Inbounds.Create(st, y).Ok? {
      InboundCreated(st, y);
    }
    if NodeReady(st, y.nodeId) && Inv(st.(inbounds := st.inbounds + [y])) {
      ApartFromAppended(st, y);
    }
  }

  lemma ApartFromAppended(st: State, y: Inbound)
    requires Inv(st.(inbounds := st.inbounds + [y])) && InboundOf(st, y.id).None?
    ensures Inbounds.Clash(st.inbounds, "", true, y.name, y.nodeId, y.listen, y.port).None?
  {
    var xs := st.inbounds + [y];
    assert xs[|st.inbounds|] == y && y in xs;
    forall x | x in st.inbounds && x.id != "" ensures InboundsApart(x, y) { assert x in xs; }
  }

  lemma ApartFromReplaced(st: State, id: string, y: Inbound)
    requires InboundOf(st, id).Some? && y.id == id && Inv(Inbounds.Put(st, id, y)) && Unique(st.inbounds, InboundKey)
    ensures Inbounds.Clash(st.inbounds, id, true, y.name, y.nodeId, y.listen, y.port).None?
    ensures forall r | r in st.rules && id in r.inboundIds :: r.nodeId == y.nodeId
  {
    var next := Inbounds.Put(st, id, y);
    var k := IndexOf(st.inbounds, InboundKey, id);
    assert next.inbounds[k] == y && y in next.inbounds;
    forall x | x in st.inbounds && x.id != id ensures InboundsApart(x, y) {
      var i :| 0 <= i < |st.inbounds| && st.inbounds[i] == x;
      assert next.inbounds[i] == x && x in next.inbounds;
    }
    FindReplace(st.inbounds, InboundKey, id, y);
    forall r | r in st.rules && id in r.inboundIds ensures r.nodeId == y.nodeId {
      assert RuleFits(next, r);
      assert OnNode(next.inbounds, r.nodeId, id);
    }
  }

  lemma InboundUpdateExact(st: State, id: string, y: Inbounds.InboundInput, now: Time)
    requires Inv(st) && InboundOf(st, id).Some?
    ensures Inbounds.Update(st, id, y, now).Ok? <==>
            && NodeReady(st, y.nodeId) && (y.enabled || !OnEnabledRule(st.rules, id))
            && Inv(Inbounds.Put(st, id, Inbounds.Apply(InboundOf(st, id).value, y, now)))
  {
    ReadyIsForWork(st, y.nodeId);
    var z := Inbounds.Apply(InboundOf(st, id).value, y, now);
    if Inbounds.Update(st, id, y, now).Ok? {
      InboundUpdated(st, id, y, now);
    }
    if NodeReady(st, y.nodeId) && (y.enabled || !OnEnabledRule(st.rules, id)) && Inv(Inbounds.Put(st, id, z)) {
      ApartFromReplaced(st, id, z);
    }
  }

  lemma RulesOnInboundNode(st: State, id: string)
    requires Inv(st) && InboundOf(st, id).Some?
    ensures forall r | r in st.rules && id in r.inboundIds :: r.nodeId == InboundOf(st, id).value.nodeId
  {
    forall r | r in st.rules && id in r.inboundIds ensures r.nodeId == InboundOf(st, id).value.nodeId {
      assert RuleFits(st, r) && OnNode(st.inbounds, r.nodeId, id);
    }
  }

  /** Switching changes no reference: only the policies decide. */
  lemma InboundEnableExact(st: State, id: string, on: bool, now: Time)
    requires Inv(st) && InboundOf(st, id).Some?
    ensures Inbounds.SetEnabled(st, id, on, now).Ok? <==>
            if on then NodeReady(st, InboundOf(st, id).value.nodeId) else !OnEnabledRule(st.rules, id)
  {
    var x := InboundOf(st, id).value;
    ReadyIsForWork(st, x.nodeId);
    RulesOnInboundNode(st, id);
    assert x in st.inbounds;
    assert Inbounds.Clash(st.inbounds, x.id, false, x.name, x.nodeId, x.listen, x.port).None? by {
      forall z | z in st.inbounds && z.id != x.id ensures !SameSocket(z, x) { assert InboundsApart(z, x); }
    }
  }

  lemma InboundDeleteExact(st: State, id: string)
    requires Inv(st) && InboundOf(st, id).Some?
    ensures Inbounds.Delete(st, id).Ok? <==>
            Inv(st.(inbounds := Without(st.inbounds, InboundKey, id),
                clients := Filter(st.clients, Inbounds.ClientOf(id))))
  {
    var next := st.(inbounds := Without(st.inbounds, InboundKey, id),
        clients := Filter(st.clients, Inbounds.ClientOf(id)));
    if Inbounds.Delete(st, id).Ok? {
      DropInbound(st, id);
    }
    if Inv(next) {
      FindWithout(st.inbounds, InboundKey, id);
      forall r | r in st.rules ensures id !in r.inboundIds {
        assert RuleFits(next, r);
        assert !OnNode(next.inbounds, r.nodeId, id);
      }
    }
  }

  // ---------- outbounds ----------

  lemma OutboundCreateExact(st: State, y: Outbound)
    requires Inv(st) && OutboundOf(st, y.id).None? && HexId(y.id) && Outbounds.ValidTag(y.tag)
    ensures Outbounds.Create(st, y).Ok? <==> NodeReady(st, y.nodeId) && Inv(st.(outbounds := st.outbounds + [y]))
  {
    ReadyIsForWork(st, y.nodeId);
    var next := st.(outbounds := st.outbounds + [y]);
    if Outbounds.Create(st, y).Ok? {
      OutboundCreated(st, y);
    }
    if NodeReady(st, y.nodeId) && Inv(next) {
      assert next.outbounds[|st.outbounds|] == y && y in next.outbounds;
      assert OutboundOk(y, NodeIds(st));
      forall x | x in st.outbounds && x.id != "" && x.nodeId == y.nodeId ensures OutboundsApart(x, y) {
        assert x in next.outbounds;
      }
    }
  }

  /** A group that names an outbound keeps the outbound available in any state with integrity. */
  lemma ReferencedIsAvailable(next: State, g: Group, id: string)
    requires Inv(next) && g in next.groups && Groups.References(g, id) && !Groups.BuiltIn(id)
    ensures Available(next.outbounds, g.nodeId, id)
  {
    assert GroupOk(g, NodeIds(next), next.outbounds);
  }

  lemma NotBuiltIn(id: string)
    requires HexId(id)
    ensures !Groups.BuiltIn(id)
  {
  }

  lemma OutboundReplacedOk(st: State, id: string, y: Outbound)
    requires OutboundOf(st, id).Some? && y.id == id && HexId(id) && Inv(Outbounds.Put(st, id, y))
    requires Unique(st.outbounds, OutboundKey)
    ensures TagOk(y.tag) && Outbounds.Clash(st.outbounds, id, y.name, y.nodeId, y.tag).None?
    ensures Groups.ReferenceChange(st.groups, id, y.nodeId, y.enabled).None?
  {
    var next := Outbounds.Put(st, id, y);
    var k := IndexOf(st.outbounds, OutboundKey, id);
    assert next.outbounds[k] == y && y in next.outbounds;
    assert OutboundOk(y, NodeIds(next));
    forall x | x in st.outbounds && x.id != id && x.nodeId == y.nodeId ensures OutboundsApart(x, y) {
      var i :| 0 <= i < |st.outbounds| && st.outbounds[i] == x;
      assert next.outbounds[i] == x && x in next.outbounds;
    }
    FindReplace(st.outbounds, OutboundKey, id, y);
    NotBuiltIn(id);
    forall g | g in st.groups && Groups.References(g, id) ensures y.enabled && g.nodeId == y.nodeId {
      ReferencedIsAvailable(next, g, id);
    }
  }

  lemma OutboundUpdateExact(st: State, id: string, y: Outbounds.OutboundInput, secret: string, now: Time)
    requires Inv(st) && OutboundOf(st, id).Some? && Outbounds.ValidTag(y.tag)
    ensures Outbounds.Update(st, id, y, secret, now).Ok? <==>
            && NodeReady(st, y.nodeId)
            && Inv(Outbounds.Put(st, id, Outbounds.Apply(OutboundOf(st, id).value, y, secret, now)))
  {
    ReadyIsForWork(st, y.nodeId);
    var z := Outbounds.Apply(OutboundOf(st, id).value, y, secret, now);
    if Outbounds.Update(st, id, y, secret, now).Ok? {
      OutboundUpdated(st, id, y, secret, now);
    }
    if NodeReady(st, y.nodeId) && Inv(Outbounds.Put(st, id, z)) {
      assert OutboundOk(OutboundOf(st, id).value, NodeIds(st));
      OutboundReplacedOk(st, id, z);
    }
  }

  lemma OutboundPasses(st: State, id: string)
    requires Inv(st) && OutboundOf(st, id).Some?
    ensures var x := OutboundOf(st, id).value;
            !Outbounds.Reserved(x.tag) && Outbounds.Clash(st.outbounds, id, x.name, x.nodeId, x.tag).None?
  {
    var x := OutboundOf(st, id).value;
    assert OutboundOk(x, NodeIds(st));
    forall z | z in st.outbounds && z.id != id && z.nodeId == x.nodeId ensures OutboundsApart(z, x) {}
  }

  lemma OutboundEnableExact(st: State, id: string, on: bool, now: Time)
    requires Inv(st) && OutboundOf(st, id).Some?
    ensures Outbounds.SetEnabled(st, id, on, now).Ok? <==>
            if on then NodeReady(st, OutboundOf(st, id).value.nodeId)
            else !Outbounds.Targeted(st.rules, id, true) &&
                 Inv(Outbounds.Put(st, id, OutboundOf(st, id).value.(enabled := false, updatedAt := now)))
  {
    var x := OutboundOf(st, id).value;
    ReadyIsForWork(st, x.nodeId);
    OutboundPasses(st, id);
    var z := x.(enabled := false, updatedAt := now);
    if !on && Outbounds.SetEnabled(st, id, on, now).Ok? {
      OutboundEnabled(st, id, on, now);
    }
    if !on && !Outbounds.Targeted(st.rules, id, true) && Inv(Outbounds.Put(st, id, z)) {
      assert OutboundOk(x, NodeIds(st));
      OutboundReplacedOk(st, id, z);
    }
  }

  lemma OutboundDeleteExact(st: State, id: string)
    requires Inv(st) && OutboundOf(st, id).Some?
    ensures Outbounds.Delete(st, id).Ok? <==> Inv(st.(outbounds := Without(st.outbounds, OutboundKey, id)))
  {
    var next := st.(outbounds := Without(st.outbounds, OutboundKey, id));
    var x := OutboundOf(st, id).value;
    if Outbounds.Delete(st, id).Ok? {
      OutboundDeleted(st, id);
    }
    if Inv(next) {
      assert OutboundOk(x, NodeIds(st));
      NotBuiltIn(id);
      FindWithout(st.outbounds, OutboundKey, id);
      IdsWithout(st.outbounds, OutboundKey, id);
      forall r | r in st.rules ensures r.outboundId != id { assert RuleFits(next, r); }
      forall g | g in st.groups && Groups.References(g, id) ensures false { ReferencedIsAvailable(next, g, id); }
    }
  }

  // ---------- groups ----------

  /** Policy: a member is not a blackhole. */
  predicate NoBlackhole(st: State, g: Group) {
    forall m | m in g.members ::
      OutboundOf(st, m.outboundId).Some? ==> OutboundOf(st, m.outboundId).value.protocol != "blackhole"
  }

  lemma GroupValidExact(st: State, g: Group)
    requires Inv(st) && Unique(g.members, MemberKey) && HexId(g.id)
    ensures Groups.Validate(st, g).None? <==>
            && NodeReady(st, g.nodeId) && NoBlackhole(st, g) && GroupOk(g, NodeIds(st), st.outbounds)
            && forall x | x in st.groups && x.id != g.id :: GroupsApart(x, g)
  {
    ReadyIsForWork(st, g.nodeId);
    if Groups.Validate(st, g).None? {
      ValidGroupFits(st, g);
      forall m | m in g.members && OutboundOf(st, m.outboundId).Some?
        ensures OutboundOf(st, m.outboundId).value.protocol != "blackhole"
      {
        assert Groups.MemberError(st, g, m.outboundId).None?;
      }
    }
    if NodeReady(st, g.nodeId) && NoBlackhole(st, g) && GroupOk(g, NodeIds(st), st.outbounds) &&
              forall x | x in st.groups && x.id != g.id :: GroupsApart(x, g) {
      forall m | m in g.members ensures Groups.MemberError(st, g, m.outboundId).None? {
        assert Available(st.outbounds, g.nodeId, m.outboundId);
      }
      assert !Groups.NameClash(st.groups, g);
      assert Groups.FallbackError(st, g).None?;
    }
  }

  lemma GroupCreateExact(st: State, g: Group)
    requires Inv(st) && GroupOf(st, g.id).None? && HexId(g.id) && Unique(g.members, MemberKey)
    ensures Groups.Create(st, g).Ok? <==>
            NodeReady(st, g.nodeId) && NoBlackhole(st, g) && Inv(st.(groups := st.groups + [g]))
  {
    var next := st.(groups := st.groups + [g]);
    GroupValidExact(st, g);
    if Groups.Create(st, g).Ok? {
      GroupCreated(st, g);
    }
    if NodeReady(st, g.nodeId) && NoBlackhole(st, g) && Inv(next) {
      assert next.groups[|st.groups|] == g && g in next.groups;
      assert GroupOk(g, NodeIds(next), next.outbounds);
      forall x | x in st.groups && x.id != g.id ensures GroupsApart(x, g) { assert x in next.groups; }
    }
  }

  lemma GroupReplacedOk(st: State, id: string, g: Group)
    requires Inv(st) && GroupOf(st, id).Some? && g.id == id && Inv(Groups.Put(st, id, g))
    ensures GroupOk(g, NodeIds(st), st.outbounds)
    ensures forall x | x in st.groups && x.id != g.id :: GroupsApart(x, g)
    ensures GroupOf(st, id).value.nodeId != g.nodeId ==> !Groups.UsedByRule(st, id, false)
    ensures !g.enabled ==> !Groups.UsedByRule(st, id, true)
  {
    var next := Groups.Put(st, id, g);
    var k := IndexOf(st.groups, GroupKey, id);
    assert next.groups[k] == g && g in next.groups;
    assert GroupOk(g, NodeIds(next), next.outbounds);
    forall x | x in st.groups && x.id != g.id ensures GroupsApart(x, g) {
      var i :| 0 <= i < |st.groups| && st.groups[i] == x;
      assert next.groups[i] == x && x in next.groups;
    }
    FindReplace(st.groups, GroupKey, id, g);
    assert id != "" by { assert GroupOk(GroupOf(st, id).value, NodeIds(st), st.outbounds); }
    forall r | r in st.rules && r.groupId == id
      ensures r.nodeId == g.nodeId == GroupOf(st, id).value.nodeId && (r.enabled ==> g.enabled)
    {
      assert RuleFits(st, r) && RuleFits(next, r);
    }
  }

  lemma GroupUpdateExact(st: State, id: string, y: Group, now: Time)
    requires Inv(st) && GroupOf(st, id).Some? && Unique(y.members, MemberKey)
    ensures var g := y.(id := id, createdAt := GroupOf(st, id).value.createdAt, updatedAt := now);
            Groups.Update(st, id, y, now).Ok? <==>
            NodeReady(st, y.nodeId) && NoBlackhole(st, g) && Inv(Groups.Put(st, id, g))
  {
    var g := y.(id := id, createdAt := GroupOf(st, id).value.createdAt, updatedAt := now);
    assert HexId(id) by { assert GroupOk(GroupOf(st, id).value, NodeIds(st), st.outbounds); }
    GroupValidExact(st, g);
    if Groups.Update(st, id, y, now).Ok? {
      GroupUpdated(st, id, y, now);
    }
    if NodeReady(st, y.nodeId) && NoBlackhole(st, g) && Inv(Groups.Put(st, id, g)) {
      GroupReplacedOk(st, id, g);
    }
  }

  lemma GroupDeleteExact(st: State, id: string)
    requires Inv(st) && GroupOf(st, id).Some?
    ensures Groups.Delete(st, id).Ok? <==> Inv(st.(groups := Without(st.groups, GroupKey, id)))
  {
    var next := st.(groups := Without(st.groups, GroupKey, id));
    if Groups.Delete(st, id).Ok? {
      DropGroup(st, id);
    }
    if Inv(next) {
      FindWithout(st.groups, GroupKey, id);
      assert id != "" by { assert GroupOk(GroupOf(st, id).value, NodeIds(st), st.outbounds); }
      forall r | r in st.rules ensures r.groupId != id { assert RuleFits(next, r); }
    }
  }

  // ---------- rules ----------

  /** Policy: the target of a new or edited rule is built in, or on the rule's node and enabled. */
  predicate LiveTarget(st: State, r: Rule) {
    if r.groupId != "" then
      match GroupOf(st, r.groupId) case None => false case Some(g) => g.nodeId == r.nodeId && g.enabled
    else Groups.BuiltIn(r.outboundId) || Available(st.outbounds, r.nodeId, r.outboundId)
  }

  lemma RuleValidExact(st: State, r: Rule)
    requires Inv(st) && (r.outboundId == "") != (r.groupId == "")
    ensures Rules.Validate(st, r).None? <==> LiveTarget(st, r) && RuleFits(st, r)
  {
    IdsFind(st.nodes, NodeKey, r.nodeId);
    IdsFind(st.outbounds, OutboundKey, r.outboundId);
    forall id ensures id in UserIds(st) <==> UserOf(st, id).Some? { IdsFind(st.users, UserKey, id); }
    assert Rules.TargetError(st, r).None? <==> LiveTarget(st, r);
    assert Rules.InboundsOnNode(st, r.nodeId, r.inboundIds) <==>
           forall id | id in r.inboundIds :: OnNode(st.inbounds, r.nodeId, id);
  }

  lemma RuleCreateExact(st: State, r: Rule)
    requires Inv(st) && RuleOf(st, r.id).None? && (r.outboundId == "") != (r.groupId == "")
    ensures Rules.Create(st, r).Ok? <==> LiveTarget(st, r) && Inv(st.(rules := st.rules + [r]))
  {
    var next := st.(rules := st.rules + [r]);
    RuleValidExact(st, r);
    if Rules.Create(st, r).Ok? {
      AppendRule(st, r);
    }
    if Inv(next) {
      assert next.rules[|st.rules|] == r && r in next.rules;
      assert RuleFits(next, r);
    }
  }

  lemma RuleUpdateExact(st: State, id: string, y: Rule, now: Time)
    requires Inv(st) && RuleOf(st, id).Some? && (y.outboundId == "") != (y.groupId == "")
    ensures var r := y.(id := id, createdAt := RuleOf(st, id).value.createdAt, updatedAt := now);
            Rules.Update(st, id, y, now).Ok? <==> LiveTarget(st, r) && Inv(Rules.Put(st, id, r))
  {
    var r := y.(id := id, createdAt := RuleOf(st, id).value.createdAt, updatedAt := now);
    var next := Rules.Put(st, id, r);
    RuleValidExact(st, r);
    if Rules.Update(st, id, y, now).Ok? {
      PutRule(st, id, r);
    }
    if Inv(next) {
      assert next.rules[IndexOf(st.rules, RuleKey, id)] == r && r in next.rules;
      assert RuleFits(next, r);
    }
  }
}
