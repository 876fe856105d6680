/** What one node's configuration depends on. */
module Frames {
  import opened Wrappers
  import opened Lists
  import opened Sorting
  import opened Entities
  import opened Compiler
  import Groups
  import HealthPorts

  /** The parts of a state the compiler looks at for one node. */
  ghost predicate SameView(a: State, b: State, n: string) {
    && NodeOf(a, n) == NodeOf(b, n)
    && a.users == b.users
    && Filter(a.inbounds, InboundOn(n)) == Filter(b.inbounds, InboundOn(n))
    && (forall x | x in a.inbounds && x.nodeId == n ::
          ClientItems(a, a.clients, x.id) == ClientItems(b, b.clients, x.id))
    && Filter(a.outbounds, OutboundOn(n)) == Filter(b.outbounds, OutboundOn(n))
    && (forall id :: LocalOutbound(a, n, id) == LocalOutbound(b, n, id))
    && Filter(a.groups, GroupOn(n)) == Filter(b.groups, GroupOn(n))
    && Filter(a.rules, RuleOn(n)) == Filter(b.rules, RuleOn(n))
    && (forall r | r in a.rules && r.nodeId == n && r.enabled :: TargetOf(a, n, r) == TargetOf(b, n, r))
  }

  // ---------- inbounds ----------

  lemma {:induction false} InboundItemsAgree(a: State, b: State, xs: seq<Inbound>)
    requires forall x | x in xs :: ClientItems(a, a.clients, x.id) == ClientItems(b, b.clients, x.id)
    ensures InboundItems(a, xs) == InboundItems(b, xs)
  {
    if xs != [] {
      assert xs[0] in xs && forall x | x in xs[1..] :: x in xs;
      InboundItemsAgree(a, b, xs[1..]);
    }
  }

  // ---------- outbounds and aliases ----------

  lemma {:induction false} MemberAliasesAgree(a: State, b: State, n: string, g: string, ms: seq<Member>,
                                              items: map<string, OutboundItem>)
    requires forall id :: LocalOutbound(a, n, id) == LocalOutbound(b, n, id)
    ensures MemberAliases(a, n, g, ms, items) == MemberAliases(b, n, g, ms, items)
  {
    if ms != [] { MemberAliasesAgree(a, b, n, g, ms[1..], items); }
  }

  lemma {:induction false} AliasesAgree(a: State, b: State, n: string, gs: seq<Group>, items: map<string, OutboundItem>)
    requires forall id :: LocalOutbound(a, n, id) == LocalOutbound(b, n, id)
    ensures Aliases(a, n, gs, items) == Aliases(b, n, gs, items)
  {
    if gs != [] {
      MemberAliasesAgree(a, b, n, gs[0].id, gs[0].members, items);
      AliasesAgree(a, b, n, gs[1..], items);
    }
  }

  // ---------- balancers ----------

  lemma MembersAgree(a: State, b: State, g: Group)
    requires forall id :: LocalOutbound(a, g.nodeId, id) == LocalOutbound(b, g.nodeId, id)
    ensures Groups.MembersError(a, g, g.members).None? == Groups.MembersError(b, g, g.members).None?
  {
    forall id ensures Groups.MemberError(a, g, id).None? == Groups.MemberError(b, g, id).None? {
      assert LocalOutbound(a, g.nodeId, id) == LocalOutbound(b, g.nodeId, id);
    }
  }

  lemma FallbackAgrees(a: State, b: State, g: Group)
    requires LocalOutbound(a, g.nodeId, g.fallback) == LocalOutbound(b, g.nodeId, g.fallback)
    ensures Groups.FallbackError(a, g).None? == Groups.FallbackError(b, g).None?
    ensures BalancerFor(a, g) == BalancerFor(b, g)
  {
  }

  lemma NamesAgree(a: State, b: State, g: Group)
    requires Filter(a.groups, GroupOn(g.nodeId)) == Filter(b.groups, GroupOn(g.nodeId))
    ensures Groups.NameClash(a.groups, g) == Groups.NameClash(b.groups, g)
  {
    NameClashLocal(a.groups, g);
    NameClashLocal(b.groups, g);
  }

  lemma ValidateAgrees(a: State, b: State, n: string, g: Group)
    requires SameView(a, b, n) && g.nodeId == n
    ensures Groups.Validate(a, g).None? == Groups.Validate(b, g).None?
    ensures BalancerFor(a, g) == BalancerFor(b, g)
  {
    MembersAgree(a, b, g);
    FallbackAgrees(a, b, g);
    NamesAgree(a, b, g);
  }

  lemma NameClashLocal(gs: seq<Group>, g: Group)
    ensures Groups.NameClash(gs, g) == Groups.NameClash(Filter(gs, GroupOn(g.nodeId)), g)
  {
    FilterMembers(gs, GroupOn(g.nodeId));
    if Groups.NameClash(gs, g) {
      var x :| x in gs && x.id != g.id && x.nodeId == g.nodeId && Groups.Text.Fold(x.name) == Groups.Text.Fold(g.name);
      assert x in Filter(gs, GroupOn(g.nodeId));
    }
  }

  lemma {:induction false} BalancersAgree(a: State, b: State, n: string, gs: seq<Group>)
    requires SameView(a, b, n) && forall g | g in gs :: g.nodeId == n
    ensures Balancers(a, gs) == Balancers(b, gs)
  {
    if gs != [] {
      assert gs[0] in gs && forall g | g in gs[1..] :: g in gs;
      ValidateAgrees(a, b, n, gs[0]);
      BalancersAgree(a, b, n, gs[1..]);
    }
  }

  // ---------- rules ----------

  lemma {:induction false} LabelsAgree(a: State, b: State, ids: seq<string>)
    requires a.users == b.users
    ensures UserLabels(a, ids) == UserLabels(b, ids)
  {
    if ids != [] { LabelsAgree(a, b, ids[1..]); }
  }

  lemma {:induction false} CompileAgrees(a: State, b: State, n: string, rs: seq<Rule>)
    requires a.users == b.users
    requires forall r | r in rs && r.enabled :: TargetOf(a, n, r) == TargetOf(b, n, r)
    ensures CompileRules(a, n, rs) == CompileRules(b, n, rs)
  {
    if rs != [] {
      assert rs[0] in rs && forall r | r in rs[1..] :: r in rs;
      LabelsAgree(a, b, rs[0].userIds);
      CompileAgrees(a, b, n, rs[1..]);
    }
  }

  lemma RoutingAgrees(a: State, b: State, n: string)
    requires a.users == b.users && Filter(a.rules, RuleOn(n)) == Filter(b.rules, RuleOn(n))
    requires forall r | r in a.rules && r.nodeId == n && r.enabled :: TargetOf(a, n, r) == TargetOf(b, n, r)
    ensures RoutingRules(a, n) == RoutingRules(b, n)
  {
    LocalRules(a, n);
    LocalRules(b, n);
    CompileAgrees(a, b, n, StableSort(Filter(a.rules, RuleOn(n)), ByPriority));
  }

  /** Sorting before or after picking the node's rules gives the same list, all of whose rules are the node's. */
  lemma LocalRules(st: State, n: string)
    ensures RoutingRules(st, n) == CompileRules(st, n, StableSort(Filter(st.rules, RuleOn(n)), ByPriority))
    ensures forall r :: r in StableSort(Filter(st.rules, RuleOn(n)), ByPriority) <==> r in st.rules && r.nodeId == n
  {
    var local := Filter(st.rules, RuleOn(n));
    FilterSort(st.rules, ByPriority, RuleOn(n));
    SortCorrect(local, ByPriority);
    FilterMembers(st.rules, RuleOn(n));
    forall r ensures r in StableSort(local, ByPriority) <==> r in st.rules && r.nodeId == n {
      assert r in StableSort(local, ByPriority) <==> r in multiset(StableSort(local, ByPriority));
      assert r in local <==> r in multiset(local);
    }
  }

  // ---------- health probes ----------

  lemma {:induction false} CandidatesLocal(xs: seq<Outbound>, n: string)
    ensures HealthPorts.CandidatesOf(xs, n) == HealthPorts.CandidatesOf(Filter(xs, OutboundOn(n)), n)
  {
    if xs != [] {
      var init, last := xs[..|xs| - 1], xs[|xs| - 1];
      CandidatesLocal(init, n);
      assert xs == init + [last];
      FilterConcat(init, [last], OutboundOn(n));
      assert [last][1..] == [];
      var f := Filter(init, OutboundOn(n));
      if last.nodeId == n {
        assert Filter(xs, OutboundOn(n)) == f + [last];
        assert (f + [last])[..|f|] == f;
      } else {
        assert Filter(xs, OutboundOn(n)) == f;
      }
    }
  }

  lemma ProbesAgree(a: State, b: State, n: string)
    requires Filter(a.inbounds, InboundOn(n)) == Filter(b.inbounds, InboundOn(n))
    requires Filter(a.outbounds, OutboundOn(n)) == Filter(b.outbounds, OutboundOn(n))
    ensures HealthPorts.Probes(a, n) == HealthPorts.Probes(b, n)
  {
    CandidatesLocal(a.outbounds, n);
    CandidatesLocal(b.outbounds, n);
    PortsLocal(a.inbounds, n);
    PortsLocal(b.inbounds, n);
  }

  lemma PortsLocal(xs: seq<Inbound>, n: string)
    ensures HealthPorts.UsedPorts(xs, n) == HealthPorts.UsedPorts(Filter(xs, InboundOn(n)), n)
  {
    FilterMembers(xs, InboundOn(n));
  }

  /** States with the same view of a node compile to the same runtime there. */
  lemma ViewDeterminesRuntime(a: State, b: State, n: string)
    requires SameView(a, b, n)
    ensures Native(a, n) == Native(b, n) && Xray(a, n) == Xray(b, n)
  {
    FilterMembers(a.inbounds, InboundOn(n));
    InboundItemsAgree(a, b, Filter(a.inbounds, InboundOn(n)));
    AliasesAgree(a, b, n, Filter(a.groups, GroupOn(n)), ByTag(BaseItems(a, n)));
    FilterMembers(a.groups, GroupOn(n));
    BalancersAgree(a, b, n, Filter(a.groups, GroupOn(n)));
    RoutingAgrees(a, b, n);
    ProbesAgree(a, b, n);
  }
}
