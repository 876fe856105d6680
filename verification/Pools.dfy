/** What the balancer of a group does, read off the configuration: where its traffic goes when no member is up, its
    strategy, and how it weighs its members. */
module Pools {
  import opened Wrappers
  import opened Lists
  import opened Entities
  import Text
  import Groups
  import opened Compiler
  import opened Integrity
  import opened Balancers
  import opened Resolution

  /** What the stored group names as fallback. */
  function FallbackChoice(g: Group): Choice {
    if g.fallback == "direct" then Direct else if g.fallback == "blocked" then Blocked else Via(g.fallback)
  }

  /** The balancer of a stored group of the node. */
  predicate BalancerOf(cfg: XrayConfig, g: Group, b: Balancer) {
    b in cfg.balancers && b.tag == "gb-bal-" + g.id
  }

  lemma BalancerIs(st: State, nodeId: string, cfg: XrayConfig, g: Group, b: Balancer)
    requires Inv(st) && Xray(st, nodeId) == Some(cfg) && g in st.groups && BalancerOf(cfg, g, b)
    ensures g.nodeId == nodeId && g.enabled && b == BalancerFor(st, g)
  {
    var gs := Filter(st.groups, GroupOn(nodeId));
    FilterMembers(st.groups, GroupOn(nodeId));
    var h := BalancerOrigin(st, gs, b);
    PrefixInjective(g.id, h.id);
    UniqueIn(st.groups, GroupKey, g);
    UniqueIn(st.groups, GroupKey, h);
  }

  lemma FallbackIs(st: State, nodeId: string, cfg: XrayConfig, g: Group)
    requires Inv(st) && Xray(st, nodeId) == Some(cfg) && g in st.groups && g.nodeId == nodeId
    ensures Reaches(st, nodeId, cfg, ToOutbound(FallbackTag(st, g)), FallbackChoice(g))
  {
    assert GroupOk(g, NodeIds(st), st.outbounds);
    if Groups.BuiltIn(g.fallback) {
      var it := if g.fallback == "direct" then BASE[0] else BASE[1];
      assert it in cfg.outbounds && CarriedBy(st, nodeId, it, FallbackChoice(g));
    } else {
      assert Available(st.outbounds, nodeId, g.fallback) && g.fallback != "";
      TagReaches(st, nodeId, cfg, OutboundOf(st, g.fallback).value.tag, g.fallback);
    }
  }

  /** Main result: when no member is up, traffic of the group leaves through what the stored group names as fallback,
      and through nothing else. */
  lemma FallbackReaches(st: State, nodeId: string, cfg: XrayConfig, g: Group, b: Balancer, c: Choice)
    requires Inv(st) && Xray(st, nodeId) == Some(cfg) && g in st.groups && BalancerOf(cfg, g, b)
    ensures Reaches(st, nodeId, cfg, ToOutbound(b.fallbackTag), c) <==> c == FallbackChoice(g)
  {
    BalancerIs(st, nodeId, cfg, g, b);
    FallbackIs(st, nodeId, cfg, g);
    if Reaches(st, nodeId, cfg, ToOutbound(b.fallbackTag), c) {
      ReachesOne(st, nodeId, cfg, ToOutbound(b.fallbackTag), c, FallbackChoice(g));
    }
  }

  /** No emitted outbound has a tag that begins like a balancer's: a target never names one of each. */
  lemma NoOutboundIsBalancer(st: State, nodeId: string, it: OutboundItem)
    requires Inv(st) && it in AllItems(st, nodeId)
    ensures !Text.HasPrefix(it.tag, "gb-bal-")
  {
    var xs, gs := Filter(st.outbounds, OutboundOn(nodeId)), Filter(st.groups, GroupOn(nodeId));
    OutboundItemsFrom(xs);
    FilterMembers(st.outbounds, OutboundOn(nodeId));
    if it in OutboundItems(xs) {
      var x :| x in xs && x.enabled && it == ItemOf(x);
      assert OutboundOk(x, NodeIds(st));
      TagIsNoBalancer(x.tag);
    } else if it in AliasItems(st, nodeId) {
      AliasesFrom(st, nodeId, gs, ByTag(BaseItems(st, nodeId)));
      var g, m :| g in gs && g.enabled && m in g.members && it.tag == AliasTag(g.id, m.outboundId);
      AliasParts(g.id, m.outboundId);
      assert it.tag[2] == 'm' && "gb-bal-"[2] == '-';
    } else {
      assert it.tag[0] == 'd' || it.tag[0] == 'b';
      assert "gb-bal-"[0] == 'g';
    }
  }

  predicate FourStrategies(s: string) {
    s in {"random", "round_robin", "least_ping", "least_load"}
  }

  /** The proxy runs the strategy of the group, under its own name for it; different strategies stay different. */
  lemma StrategyKept(st: State, nodeId: string, cfg: XrayConfig, g: Group, b: Balancer)
    requires Inv(st) && Xray(st, nodeId) == Some(cfg) && g in st.groups && BalancerOf(cfg, g, b)
    requires FourStrategies(g.strategy)
    ensures b.strategy == "random" <==> g.strategy == "random"
    ensures b.strategy == "roundRobin" <==> g.strategy == "round_robin"
    ensures b.strategy == "leastPing" <==> g.strategy == "least_ping"
    ensures b.strategy == "leastLoad" <==> g.strategy == "least_load"
  {
    BalancerIs(st, nodeId, cfg, g, b);
  }

  /** The cost names the member's alias, and times its weight is a hundred times its priority number plus one. */
  predicate CostFits(c: Cost, groupId: string, m: Member) {
    && c.alias == "gbm-" + groupId + "-" + m.outboundId
    && (m.weight >= 1 ==> c.value * m.weight as real == (100 * (m.priority + 1)) as real)
  }

  lemma {:induction false} CostsFit(groupId: string, ms: seq<Member>)
    ensures |Costs(groupId, ms)| == |ms|
    ensures forall i | 0 <= i < |ms| :: CostFits(Costs(groupId, ms)[i], groupId, ms[i])
  {
    if ms != [] {
      var cs := Costs(groupId, ms);
      CostsFit(groupId, ms[1..]);
      assert CostFits(cs[0], groupId, ms[0]);
      forall i | 0 <= i < |ms| ensures CostFits(cs[i], groupId, ms[i]) {
        if i > 0 { assert cs[i] == Costs(groupId, ms[1..])[i - 1] && ms[i] == ms[1..][i - 1]; }
      }
    }
  }

  /** Main result: under least_load the costs name exactly the aliases of the members, one each in their order, each
      with the value of its member; otherwise there are no costs. */
  lemma CostsExact(st: State, nodeId: string, cfg: XrayConfig, g: Group, b: Balancer)
    requires Inv(st) && Xray(st, nodeId) == Some(cfg) && g in st.groups && BalancerOf(cfg, g, b)
    ensures g.strategy != "least_load" ==> b.costs == [] && b.expected == 0
    ensures g.strategy == "least_load" ==>
              && |b.costs| == |g.members| && b.expected == (if g.expected >= 1 then g.expected else 1)
              && forall i | 0 <= i < |g.members| :: CostFits(b.costs[i], g.id, g.members[i])
  {
    BalancerIs(st, nodeId, cfg, g, b);
    CostsFit(g.id, g.members);
  }

  lemma {:induction false} TimesLess(a: real, b: real, n: int)
    requires a < b && n >= 1
    ensures a * n as real < b * n as real
  {
    if n > 1 {
      TimesLess(a, b, n - 1);
      assert n as real == (n - 1) as real + 1.0;
      assert a * n as real == a * (n - 1) as real + a;
      assert b * n as real == b * (n - 1) as real + b;
    }
  }

  lemma {:induction false} TimesMore(a: real, m: int, n: int)
    requires a > 0.0 && 1 <= m < n
    ensures a * m as real < a * n as real
    decreases n
  {
    assert n as real == (n - 1) as real + 1.0;
    assert a * n as real == a * (n - 1) as real + a;
    if m < n - 1 { TimesMore(a, m, n - 1); }
  }

  /** Costs order members: a greater weight is cheaper, a greater priority number dearer. */
  lemma CostOrder(c: Cost, d: Cost, groupId: string, m: Member, n: Member)
    requires CostFits(c, groupId, m) && CostFits(d, groupId, n)
    requires m.weight >= 1 && n.weight >= 1 && m.priority >= 0 && n.priority >= 0
    ensures c.value > 0.0
    ensures m.priority == n.priority && m.weight > n.weight ==> c.value < d.value
    ensures m.weight == n.weight && m.priority > n.priority ==> c.value > d.value
  {
    PositiveCost(c, groupId, m);
    PositiveCost(d, groupId, n);
    var v, w := m.weight as real, n.weight as real;
    var x, y := (100 * (m.priority + 1)) as real, (100 * (n.priority + 1)) as real;
    if m.priority == n.priority && m.weight > n.weight {
      TimesMore(d.value, n.weight, m.weight);
      NotLess(d.value, c.value, m.weight, d.value * v, x);
    }
    if m.weight == n.weight && m.priority > n.priority {
      NotLess(c.value, d.value, m.weight, x, y);
    }
  }

  lemma NotLess(a: real, b: real, n: int, x: real, y: real)
    requires n >= 1 && a * n as real == x && b * n as real == y && x > y
    ensures a > b
  {
    if a < b { TimesLess(a, b, n); }
  }

  lemma PositiveCost(c: Cost, groupId: string, m: Member)
    requires CostFits(c, groupId, m) && m.weight >= 1 && m.priority >= 0
    ensures c.value > 0.0
  {
    NotLess(c.value, 0.0, m.weight, (100 * (m.priority + 1)) as real, 0.0);
  }
}
