/** The compiled rule list means what the stored rules mean: the proxy's first match is the administrator's choice. */
module RoutingMeaning {
  import opened Wrappers
  import opened Lists
  import opened Sorting
  import opened Entities
  import opened Compiler
  import HealthPorts
  import Rules

  // ---------- the proxy's side ----------

  datatype Flow = Flow(host: string, ip: string, port: int, network: string, protocol: string)

  /** How the proxy compares a flow with one pattern; the pattern languages themselves stay abstract. */
  datatype Patterns = Patterns(domain: (string, Flow) -> bool, ip: (string, Flow) -> bool, port: (string, Flow) -> bool,
                               network: (string, Flow) -> bool, protocol: (string, Flow) -> bool)

  datatype Traffic = Traffic(inboundTag: string, user: string, flow: Flow)

  predicate Accepts(m: Matcher, f: Flow, p: Patterns) {
    && (m.domains == [] || exists d :: d in m.domains && p.domain(d, f))
    && (m.ips == [] || exists d :: d in m.ips && p.ip(d, f))
    && (m.ports == "" || p.port(m.ports, f))
    && (m.network == "" || p.network(m.network, f))
    && (m.protocols == [] || exists d :: d in m.protocols && p.protocol(d, f))
  }

  predicate Hits(x: XrayRule, t: Traffic, p: Patterns) {
    && (x.inboundTags == [] || t.inboundTag in x.inboundTags)
    && (x.users == [] || t.user in x.users)
    && Accepts(x.matcher, t.flow, p)
  }

  function FirstMatch(rules: seq<XrayRule>, t: Traffic, p: Patterns): Option<Target> {
    if rules == [] then None
    else if Hits(rules[0], t, p) then Some(rules[0].target)
    else FirstMatch(rules[1..], t, p)
  }

  // ---------- the administrator's side ----------

  /** A flow of a user that entered through an inbound. */
  datatype Request = Request(inboundId: string, userId: string, flow: Flow)

  predicate Matches(r: Rule, q: Request, p: Patterns) {
    && (r.inboundIds == [] || q.inboundId in r.inboundIds)
    && (r.userIds == [] || q.userId in r.userIds)
    && Accepts(r.matcher, q.flow, p)
  }

  /** What a rule compiles to, for unique identifiers: its group's balancer if the group is enabled and on the node, or
      the tag of its outbound if that is built in or enabled, on whichever node. */
  lemma TargetExact(st: State, nodeId: string, r: Rule, target: Target)
    requires Unique(st.groups, GroupKey) && Unique(st.outbounds, OutboundKey)
    ensures TargetOf(st, nodeId, r) == Some(target) <==>
            if r.groupId != "" then
              exists g :: g in st.groups && g.id == r.groupId && g.enabled && g.nodeId == nodeId &&
                target == ToBalancer("gb-bal-" + g.id)
            else if r.outboundId == "direct" || r.outboundId == "blocked" then target == ToOutbound(r.outboundId)
            else exists o :: o in st.outbounds && o.id == r.outboundId && o.enabled && target == ToOutbound(o.tag)
  {
    forall g | g in st.groups ensures GroupOf(st, g.id) == Some(g) { UniqueIn(st.groups, GroupKey, g); }
    forall o | o in st.outbounds ensures OutboundOf(st, o.id) == Some(o) { UniqueIn(st.outbounds, OutboundKey, o); }
  }

  /** Enabled rules of the node with a usable target that match the request. */
  ghost function Eligible(st: State, nodeId: string, q: Request, p: Patterns): Rule -> bool {
    (r: Rule) => r.nodeId == nodeId && r.enabled && TargetOf(st, nodeId, r).Some? && Matches(r, q, p)
  }

  /** `target` is that of the eligible rule with the least priority number, the earlier one on a tie;
      None when no rule is eligible. */
  ghost predicate Decides(st: State, nodeId: string, q: Request, p: Patterns, target: Option<Target>) {
    var rs := Filter(st.rules, Eligible(st, nodeId, q, p));
    if rs == [] then target == None
    else exists i: nat :: FirstLeast(rs, ByPriority, i) && target == TargetOf(st, nodeId, rs[i])
  }

  lemma DecisionUnique(st: State, nodeId: string, q: Request, p: Patterns, a: Option<Target>, b: Option<Target>)
    requires Decides(st, nodeId, q, p, a) && Decides(st, nodeId, q, p, b)
    ensures a == b
  {
    var rs := Filter(st.rules, Eligible(st, nodeId, q, p));
    if rs != [] {
      var i: nat :| FirstLeast(rs, ByPriority, i) && a == TargetOf(st, nodeId, rs[i]);
      var j: nat :| FirstLeast(rs, ByPriority, j) && b == TargetOf(st, nodeId, rs[j]);
      FirstLeastUnique(rs, ByPriority, i, j);
    }
  }

  ghost predicate UsernamesDistinct(st: State) {
    forall a, b | UserOf(st, a).Some? && UserOf(st, b).Some? ::
      UserOf(st, a).value.username == UserOf(st, b).value.username ==> a == b
  }

  /** The rule names only users that exist. */
  ghost predicate UsersResolve(st: State, nodeId: string) {
    forall r | r in st.rules && r.nodeId == nodeId :: Rules.UsersExist(st, r.userIds)
  }

  /** How a request shows up at the proxy when the label of its binding is in step with the username. */
  function Seen(st: State, q: Request): Traffic
    requires UserOf(st, q.userId).Some?
  {
    Traffic(InboundTag(q.inboundId), UserLabel(UserOf(st, q.userId).value.username), q.flow)
  }

  lemma {:induction false} LabelsExact(st: State, ids: seq<string>, userId: string)
    requires UsernamesDistinct(st) && UserOf(st, userId).Some? && Rules.UsersExist(st, ids)
    ensures UserLabels(st, ids) == [] <==> ids == []
    ensures UserLabel(UserOf(st, userId).value.username) in UserLabels(st, ids) <==> userId in ids
  {
    if ids != [] {
      assert ids[0] in ids && forall id | id in ids[1..] :: id in ids;
      LabelsExact(st, ids[1..], userId);
      var name, name' := UserOf(st, userId).value.username, UserOf(st, ids[0]).value.username;
      assert UserLabel(name)[3..] == name && UserLabel(name')[3..] == name';
      assert ids == [ids[0]] + ids[1..];
    }
  }

  lemma {:induction false} TagsExact(ids: seq<string>, id: string)
    ensures InboundTags(ids) == [] <==> ids == []
    ensures InboundTag(id) in InboundTags(ids) <==> id in ids
  {
    if ids != [] {
      TagsExact(ids[1..], id);
      assert InboundTag(id)[6..] == id && InboundTag(ids[0])[6..] == ids[0];
      assert ids == [ids[0]] + ids[1..];
    }
  }

  /** One rule: the compiled matcher accepts what the stored one accepts. */
  lemma RuleMeaning(st: State, r: Rule, target: Target, q: Request, p: Patterns)
    requires UsernamesDistinct(st) && UserOf(st, q.userId).Some? && Rules.UsersExist(st, r.userIds)
    ensures Hits(RuleFor(st, r, target), Seen(st, q), p) <==> Matches(r, q, p)
  {
    LabelsExact(st, r.userIds, q.userId);
    TagsExact(r.inboundIds, q.inboundId);
  }

  lemma {:induction false} FirstMatchIsHead(st: State, nodeId: string, rs: seq<Rule>, q: Request, p: Patterns)
    requires UsernamesDistinct(st) && UserOf(st, q.userId).Some?
    requires forall r | r in rs :: Rules.UsersExist(st, r.userIds) && r.nodeId == nodeId
    ensures var hit := FirstMatch(CompileRules(st, nodeId, rs), Seen(st, q), p);
            var es := Filter(rs, Eligible(st, nodeId, q, p));
            hit == if es == [] then None else TargetOf(st, nodeId, es[0])
  {
    if rs != [] {
      var r := rs[0];
      assert r in rs && forall x | x in rs[1..] :: x in rs;
      FirstMatchIsHead(st, nodeId, rs[1..], q, p);
      var target, rest := TargetOf(st, nodeId, r), CompileRules(st, nodeId, rs[1..]);
      if r.enabled && target.Some? {
        RuleMeaning(st, r, target.value, q, p);
        assert ([RuleFor(st, r, target.value)] + rest)[1..] == rest;
      } else {
        assert CompileRule(st, nodeId, r) + rest == rest;
      }
    }
  }

  lemma {:induction false} FilterTwice<T>(xs: seq<T>, p: T -> bool, q: T -> bool)
    requires forall x | x in xs && q(x) :: p(x)
    ensures Filter(Filter(xs, p), q) == Filter(xs, q)
  {
    if xs != [] {
      assert xs[0] in xs && forall x | x in xs[1..] :: x in xs;
      FilterTwice(xs[1..], p, q);
      assert xs == [xs[0]] + xs[1..];
      FilterCons(xs[0], xs[1..], p);
      FilterCons(xs[0], xs[1..], q);
      FilterCons(xs[0], Filter(xs[1..], p), q);
    }
  }

  /** Main result: for every request of an existing user, the proxy's first match over the compiled list is the
      target of the least-priority, earliest matching rule of the node. */
  lemma FirstMatchDecides(st: State, nodeId: string, q: Request, p: Patterns)
    requires UsernamesDistinct(st) && UsersResolve(st, nodeId) && UserOf(st, q.userId).Some?
    ensures Decides(st, nodeId, q, p, FirstMatch(RoutingRules(st, nodeId), Seen(st, q), p))
  {
    var e := Eligible(st, nodeId, q, p);
    var sorted := StableSort(st.rules, ByPriority);
    var local := Filter(sorted, RuleOn(nodeId));
    SortCorrect(st.rules, ByPriority);
    FilterMembers(sorted, RuleOn(nodeId));
    forall r | r in local ensures Rules.UsersExist(st, r.userIds) && r.nodeId == nodeId {
      assert r in multiset(sorted);
    }
    FirstMatchIsHead(st, nodeId, local, q, p);
    FilterTwice(sorted, RuleOn(nodeId), e);
    FilterSort(st.rules, ByPriority, e);
    var es := Filter(st.rules, e);
    if es != [] {
      var i := SortHead(es, ByPriority);
    }
  }

  // ---------- health probes ----------

  lemma {:induction false} HealthRulesSkip(ps: seq<HealthPorts.Probe>, rest: seq<XrayRule>, t: Traffic, p: Patterns)
    requires forall x | x in ps :: x.inboundTag != t.inboundTag
    ensures FirstMatch(HealthRules(ps) + rest, t, p) == FirstMatch(rest, t, p)
  {
    if ps == [] {
      assert HealthRules(ps) + rest == rest;
    } else {
      assert ps[0] in ps && forall x | x in ps[1..] :: x in ps;
      HealthRulesSkip(ps[1..], rest, t, p);
      assert (HealthRules(ps) + rest)[1..] == HealthRules(ps[1..]) + rest;
    }
  }

  /** The health rules in front of the list change no decision about traffic from a user inbound. */
  lemma HealthRulesTransparent(st: State, nodeId: string, ps: seq<HealthPorts.Probe>, rest: seq<XrayRule>,
                               t: Traffic, inboundId: string, p: Patterns)
    requires HealthPorts.Probes(st, nodeId) == Some(ps)
    requires t.inboundTag == InboundTag(inboundId)
    ensures FirstMatch(HealthRules(ps) + rest, t, p) == FirstMatch(rest, t, p)
  {
    forall x | x in ps ensures x.inboundTag != t.inboundTag {
      assert HealthPorts.HealthInboundTag(x.outboundId)[3] == 'h';
      assert InboundTag(inboundId)[3] == 'i';
    }
    HealthRulesSkip(ps, rest, t, p);
  }

  /** A probe meets its own health rule before any user rule. */
  lemma {:induction false} ProbeMatched(ps: seq<HealthPorts.Probe>, k: nat, rest: seq<XrayRule>, user: string,
                                                   f: Flow, p: Patterns)
    requires k < |ps|
    requires forall i | 0 <= i < |ps| :: ps[i].inboundTag == HealthPorts.HealthInboundTag(ps[i].outboundId)
    requires forall i, j | 0 <= i < j < |ps| :: ps[i].outboundId != ps[j].outboundId
    ensures FirstMatch(HealthRules(ps) + rest, Traffic(ps[k].inboundTag, user, f), p) ==
            Some(ToOutbound(ps[k].outboundTag))
  {
    var rules := HealthRules(ps) + rest;
    var t := Traffic(ps[k].inboundTag, user, f);
    if k > 0 {
      ProbeMatched(ps[1..], k - 1, rest, user, f, p);
      assert rules[1..] == HealthRules(ps[1..]) + rest;
      assert ps[0].inboundTag[10..] == ps[0].outboundId && ps[k].inboundTag[10..] == ps[k].outboundId;
      assert rules[0].inboundTags == [ps[0].inboundTag];
    } else {
      assert rules[0] == HealthRules(ps)[0];
      assert t.inboundTag in rules[0].inboundTags;
    }
  }
}
