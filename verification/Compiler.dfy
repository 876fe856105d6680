/** What buildXrayConfig and the native outbound specs make of a state, node by node. */
module Compiler {
  import opened Wrappers
  import opened Lists
  import opened Sorting
  import opened Entities
  import Inbounds
  import Groups
  import HealthPorts

  datatype ClientItem = ClientItem(credential: string, email: string)

  datatype InboundItem = InboundItem(tag: string, listen: string, port: int, protocol: string, transport: string,
                                     tlsMode: string, settings: string, realityKey: string, ssPassword: string,
                                     clients: seq<ClientItem>)

  datatype OutboundItem = OutboundItem(tag: string, protocol: string, settings: string, secret: string)

  datatype Target = ToOutbound(tag: string) | ToBalancer(tag: string)

  /** A routing rule of the proxy; an empty list or string puts no condition on the traffic. */
  datatype XrayRule = XrayRule(ruleTag: string, target: Target, inboundTags: seq<string>, users: seq<string>,
                               matcher: Matcher)

  datatype Cost = Cost(alias: string, value: real)

  datatype Balancer = Balancer(tag: string, selector: string, fallbackTag: string, strategy: string,
                               expected: int, costs: seq<Cost>)

  datatype XrayConfig = XrayConfig(inbounds: seq<InboundItem>, outbounds: seq<OutboundItem>,
                                   probes: seq<HealthPorts.Probe>, rules: seq<XrayRule>, balancers: seq<Balancer>)

  /** What an agent runs: the native WireGuard, Tor and OpenVPN outbounds, and the proxy configuration. */
  datatype NodeRuntime = NodeRuntime(native: seq<OutboundItem>, xray: XrayConfig)

  function InboundTag(id: string): string { "gb-in-" + id }
  function RouteTag(id: string): string { "gb-route-" + id }
  function HealthRouteTag(id: string): string { "gb-health-route-" + id }
  function BalancerTag(id: string): string { "gb-bal-" + id }
  function MemberPrefix(groupId: string): string { "gbm-" + groupId + "-" }
  function AliasTag(groupId: string, outboundId: string): string { MemberPrefix(groupId) + outboundId }
  function UserLabel(username: string): string { "gb:" + username }

  const ANY := Matcher([], [], "", "", [])

  function InboundOn(nodeId: string): Inbound -> bool { (x: Inbound) => x.nodeId == nodeId }
  function OutboundOn(nodeId: string): Outbound -> bool { (x: Outbound) => x.nodeId == nodeId }
  function GroupOn(nodeId: string): Group -> bool { (x: Group) => x.nodeId == nodeId }
  function RuleOn(nodeId: string): Rule -> bool { (x: Rule) => x.nodeId == nodeId }

  // ---------- inbounds ----------

  /** The enabled bindings of active users, as the loop over st.InboundClients collects them. */
  function ClientItems(st: State, clients: seq<Client>, inboundId: string): seq<ClientItem> {
    if clients == [] then []
    else
      var c := clients[0];
      var rest := ClientItems(st, clients[1..], inboundId);
      if c.inboundId != inboundId || !c.enabled then rest
      else
        match UserOf(st, c.userId)
        case None => rest
        case Some(u) =>
          if u.status != "active" then rest
          else [ClientItem(c.credentialEnc, if c.email == "" then UserLabel(u.id) else c.email)] + rest
  }

  function InboundItems(st: State, xs: seq<Inbound>): seq<InboundItem> {
    if xs == [] then []
    else
      var x := xs[0];
      var rest := InboundItems(st, xs[1..]);
      if !x.enabled || !Inbounds.ValidProtocol(x.protocol) then rest
      else [InboundItem(InboundTag(x.id), x.listen, x.port, x.protocol, x.transport, x.tlsMode, x.settings,
                        x.realityKey, x.ssPassword, ClientItems(st, st.clients, x.id))] + rest
  }

  // ---------- outbounds ----------

  const BASE := [OutboundItem("direct", "freedom", "", ""), OutboundItem("blocked", "blackhole", "", "")]

  function ItemOf(x: Outbound): OutboundItem {
    OutboundItem(x.tag, x.protocol, x.settings, x.passwordEnc)
  }

  function OutboundItems(xs: seq<Outbound>): seq<OutboundItem> {
    if xs == [] then [] else (if xs[0].enabled then [ItemOf(xs[0])] else []) + OutboundItems(xs[1..])
  }

  /** The map byTag of buildXrayBalancerAliases: a later item with the same tag wins. */
  function ByTag(items: seq<OutboundItem>): map<string, OutboundItem> {
    if items == [] then map[]
    else
      var last := items[|items| - 1];
      var m := ByTag(items[..|items| - 1]);
      if last.tag == "" then m else m[last.tag := last]
  }

  /** The outbound, provided it exists on the node. */
  function LocalOutbound(st: State, nodeId: string, id: string): Option<Outbound> {
    match OutboundOf(st, id)
    case None => None
    case Some(o) => if o.nodeId == nodeId then Some(o) else None
  }

  function MemberAliases(st: State, nodeId: string, groupId: string, ms: seq<Member>,
                         items: map<string, OutboundItem>): seq<OutboundItem> {
    if ms == [] then []
    else
      var rest := MemberAliases(st, nodeId, groupId, ms[1..], items);
      match LocalOutbound(st, nodeId, ms[0].outboundId)
      case None => rest
      case Some(o) =>
        if !o.enabled || o.tag !in items then rest
        else [items[o.tag].(tag := AliasTag(groupId, o.id))] + rest
  }

  function Aliases(st: State, nodeId: string, gs: seq<Group>, items: map<string, OutboundItem>): seq<OutboundItem> {
    if gs == [] then []
    else (if gs[0].enabled then MemberAliases(st, nodeId, gs[0].id, gs[0].members, items) else []) +
         Aliases(st, nodeId, gs[1..], items)
  }

  function BaseItems(st: State, nodeId: string): seq<OutboundItem> {
    BASE + OutboundItems(Filter(st.outbounds, OutboundOn(nodeId)))
  }

  function AliasItems(st: State, nodeId: string): seq<OutboundItem> {
    Aliases(st, nodeId, Filter(st.groups, GroupOn(nodeId)), ByTag(BaseItems(st, nodeId)))
  }

  /** buildXrayOutbounds, up to its credential errors */
  function AllItems(st: State, nodeId: string): seq<OutboundItem> {
    BaseItems(st, nodeId) + AliasItems(st, nodeId)
  }

  // ---------- balancers ----------

  function FallbackTag(st: State, g: Group): string {
    if g.fallback == "" || g.fallback == "blocked" then "blocked"
    else if g.fallback == "direct" then "direct"
    else
      match LocalOutbound(st, g.nodeId, g.fallback)
      case None => "blocked"
      case Some(o) => if o.enabled then o.tag else "blocked"
  }

  function StrategyName(s: string): string {
    if s == "random" then "random" else if s == "round_robin" then "roundRobin"
    else if s == "least_load" then "leastLoad" else "leastPing"
  }

  function Costs(groupId: string, ms: seq<Member>): seq<Cost> {
    if ms == [] then []
    else
      var weight := if ms[0].weight <= 0 then 1 else ms[0].weight;
      [Cost(AliasTag(groupId, ms[0].outboundId), ((ms[0].priority + 1) * 100) as real / weight as real)] +
      Costs(groupId, ms[1..])
  }

  function BalancerFor(st: State, g: Group): Balancer {
    var loaded := g.strategy == "least_load";
    Balancer(BalancerTag(g.id), MemberPrefix(g.id), FallbackTag(st, g), StrategyName(g.strategy),
             if !loaded then 0 else if g.expected <= 0 then 1 else g.expected,
             if loaded then Costs(g.id, g.members) else [])
  }

  function Balancers(st: State, gs: seq<Group>): seq<Balancer> {
    if gs == [] then []
    else (if gs[0].enabled && Groups.Validate(st, gs[0]).None? then [BalancerFor(st, gs[0])] else []) +
         Balancers(st, gs[1..])
  }

  // ---------- routing ----------

  /** The target a rule compiles to; None when buildXrayRouting skips the rule. */
  function TargetOf(st: State, nodeId: string, r: Rule): Option<Target> {
    if r.groupId != "" then
      match GroupOf(st, r.groupId)
      case None => None
      case Some(g) => if !g.enabled || g.nodeId != nodeId then None else Some(ToBalancer(BalancerTag(g.id)))
    else if Groups.BuiltIn(r.outboundId) then Some(ToOutbound(r.outboundId))
    else
      match OutboundOf(st, r.outboundId)
      case None => None
      case Some(o) => if o.enabled then Some(ToOutbound(o.tag)) else None
  }

  function InboundTags(ids: seq<string>): (r: seq<string>)
    ensures |r| == |ids|
    ensures forall i | 0 <= i < |ids| :: r[i] == InboundTag(ids[i])
  {
    if ids == [] then [] else [InboundTag(ids[0])] + InboundTags(ids[1..])
  }

  function UserLabels(st: State, ids: seq<string>): seq<string> {
    if ids == [] then []
    else
      (match UserOf(st, ids[0])
       case None => []
       case Some(u) => [UserLabel(u.username)]) + UserLabels(st, ids[1..])
  }

  function RuleFor(st: State, r: Rule, target: Target): XrayRule {
    XrayRule(RouteTag(r.id), target, InboundTags(r.inboundIds), UserLabels(st, r.userIds), r.matcher)
  }

  function CompileRule(st: State, nodeId: string, r: Rule): seq<XrayRule> {
    if !r.enabled then []
    else
      match TargetOf(st, nodeId, r)
      case None => []
      case Some(t) => [RuleFor(st, r, t)]
  }

  function CompileRules(st: State, nodeId: string, rs: seq<Rule>): seq<XrayRule> {
    if rs == [] then [] else CompileRule(st, nodeId, rs[0]) + CompileRules(st, nodeId, rs[1..])
  }

  predicate ByPriority(a: Rule, b: Rule) {
    a.priority <= b.priority
  }

  /** buildXrayRouting sorts the rules of all nodes, then keeps those of this node. */
  function RoutingRules(st: State, nodeId: string): seq<XrayRule> {
    CompileRules(st, nodeId, Filter(StableSort(st.rules, ByPriority), RuleOn(nodeId)))
  }

  function HealthRules(probes: seq<HealthPorts.Probe>): seq<XrayRule> {
    if probes == [] then []
    else [XrayRule(HealthRouteTag(probes[0].outboundId), ToOutbound(probes[0].outboundTag), [probes[0].inboundTag],
                   [], ANY)] + HealthRules(probes[1..])
  }

  // ---------- the whole node ----------

  function NativeItems(xs: seq<Outbound>, protocol: string): seq<OutboundItem> {
    if xs == [] then []
    else (if xs[0].enabled && xs[0].protocol == protocol then [ItemOf(xs[0])] else []) + NativeItems(xs[1..], protocol)
  }

  function Native(st: State, nodeId: string): seq<OutboundItem> {
    var xs := Filter(st.outbounds, OutboundOn(nodeId));
    NativeItems(xs, "wireguard") + NativeItems(xs, "tor") + NativeItems(xs, "openvpn")
  }

  /** buildXrayConfig fails when the node is unknown or when no port is left for a health probe. */
  function Xray(st: State, nodeId: string): Option<XrayConfig> {
    if NodeOf(st, nodeId).None? then None
    else
      match HealthPorts.Probes(st, nodeId)
      case None => None
      case Some(ps) =>
        Some(XrayConfig(InboundItems(st, Filter(st.inbounds, InboundOn(nodeId))), AllItems(st, nodeId), ps,
                        HealthRules(ps) + RoutingRules(st, nodeId), Balancers(st, Filter(st.groups, GroupOn(nodeId)))))
  }

  /** Does the runtime of a node run exactly what the state compiles to? */
  ghost predicate Runs(st: State, nodeId: string, rt: NodeRuntime) {
    rt.native == Native(st, nodeId) && Xray(st, nodeId) == Some(rt.xray)
  }

  /** buildXrayRouting: sort, then one pass that skips and appends. */
  method BuildRouting(st: State, nodeId: string) returns (out: seq<XrayRule>)
    ensures out == RoutingRules(st, nodeId)
  {
    var rules := StableSort(st.rules, ByPriority);
    out := [];
    for i := 0 to |rules|
      invariant out == CompileRules(st, nodeId, Filter(rules[..i], RuleOn(nodeId)))
    {
      var r := rules[i];
      assert rules[..i + 1] == rules[..i] + [r];
      FilterConcat(rules[..i], [r], RuleOn(nodeId));
      CompileConcat(st, nodeId, Filter(rules[..i], RuleOn(nodeId)), Filter([r], RuleOn(nodeId)));
      FilterCons(r, [], RuleOn(nodeId));
      if r.nodeId != nodeId || !r.enabled {
        continue;
      }
      var target := TargetOf(st, nodeId, r);
      if target.Some? {
        out := out + [RuleFor(st, r, target.value)];
      }
    }
    assert rules[..|rules|] == rules;
  }

  lemma {:induction false} CompileConcat(st: State, nodeId: string, a: seq<Rule>, b: seq<Rule>)
    ensures CompileRules(st, nodeId, a + b) == CompileRules(st, nodeId, a) + CompileRules(st, nodeId, b)
  {
    if a == [] {
      assert a + b == b;
    } else {
      assert (a + b)[1..] == a[1..] + b;
      CompileConcat(st, nodeId, a[1..], b);
    }
  }
}
