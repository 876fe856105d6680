/** Where the compiled targets lead: the administrator names outbounds and groups, the proxy knows tags. */
module Resolution {
  import opened Wrappers
  import opened Lists
  import opened Sorting
  import opened Entities
  import Groups
  import HealthPorts
  import opened Compiler
  import opened Integrity
  import opened Acceptance
  import opened RoutingMeaning
  import opened Labels
  import opened Balancers

  // ---------- the administrator's answer ----------

  datatype Choice = Direct | Blocked | Via(outboundId: string) | Balanced(groupId: string)

  /** What a stored rule asks for. */
  function ChoiceOf(r: Rule): Choice {
    if r.groupId != "" then Balanced(r.groupId)
    else if r.outboundId == "direct" then Direct
    else if r.outboundId == "blocked" then Blocked
    else Via(r.outboundId)
  }

  function Applies(nodeId: string, q: Request, p: Patterns): Rule -> bool {
    (r: Rule) => r.nodeId == nodeId && r.enabled && Matches(r, q, p)
  }

  /** The choice of the enabled matching rule of the node with the least priority number, the earlier one on a tie. */
  ghost predicate Chooses(st: State, nodeId: string, q: Request, p: Patterns, c: Option<Choice>) {
    var rs := Filter(st.rules, Applies(nodeId, q, p));
    if rs == [] then c == None
    else exists i: nat :: FirstLeast(rs, ByPriority, i) && c == Some(ChoiceOf(rs[i]))
  }

  lemma ChoosesOne(st: State, nodeId: string, q: Request, p: Patterns, c: Option<Choice>, d: Option<Choice>)
    requires Chooses(st, nodeId, q, p, c) && Chooses(st, nodeId, q, p, d)
    ensures c == d
  {
    var rs := Filter(st.rules, Applies(nodeId, q, p));
    if rs != [] {
      var i: nat :| FirstLeast(rs, ByPriority, i) && c == Some(ChoiceOf(rs[i]));
      var j: nat :| FirstLeast(rs, ByPriority, j) && d == Some(ChoiceOf(rs[j]));
      FirstLeastUnique(rs, ByPriority, i, j);
    }
  }

  // ---------- what a tag leads to ----------

  /** The item of the configuration is that of the chosen outbound. */
  predicate CarriedBy(st: State, nodeId: string, it: OutboundItem, c: Choice) {
    match c
    case Direct => it == BASE[0]
    case Blocked => it == BASE[1]
    case Via(id) =>
      (match OutboundOf(st, id)
       case None => false
       case Some(o) => o.nodeId == nodeId && o.enabled && it == ItemOf(o))
    case Balanced(_) => false
  }

  /** Traffic that the proxy of the node sends to the target leaves as chosen. */
  ghost predicate Reaches(st: State, nodeId: string, cfg: XrayConfig, t: Target, c: Choice) {
    match t
    case ToOutbound(tag) => exists it :: it in cfg.outbounds && it.tag == tag && CarriedBy(st, nodeId, it, c)
    case ToBalancer(tag) =>
      c.Balanced? && exists b :: b in cfg.balancers && b.tag == tag && b.selector == MemberPrefix(c.groupId)
  }

  lemma UniqueItem(items: seq<OutboundItem>, a: OutboundItem, b: OutboundItem)
    requires Unique(items, ItemTag) && a in items && b in items && a.tag == b.tag
    ensures a == b
  {
    UniqueIn(items, ItemTag, a);
    UniqueIn(items, ItemTag, b);
  }

  lemma SameTagSameOutbound(st: State, a: Outbound, b: Outbound)
    requires Inv(st) && a in st.outbounds && b in st.outbounds && a.nodeId == b.nodeId && a.tag == b.tag
    ensures a.id == b.id
  {
  }

  lemma CarriedByOne(st: State, nodeId: string, it: OutboundItem, c: Choice, d: Choice)
    requires Inv(st) && CarriedBy(st, nodeId, it, c) && CarriedBy(st, nodeId, it, d)
    ensures c == d
  {
    forall id | OutboundOf(st, id).Some? ensures TagOk(OutboundOf(st, id).value.tag) {
      assert OutboundOk(OutboundOf(st, id).value, NodeIds(st));
    }
    if c.Via? && d.Via? {
      SameTagSameOutbound(st, OutboundOf(st, c.outboundId).value, OutboundOf(st, d.outboundId).value);
    }
  }

  lemma PrefixInjective(a: string, b: string)
    ensures MemberPrefix(a) == MemberPrefix(b) ==> a == b
    ensures BalancerTag(a) == BalancerTag(b) ==> a == b
  {
    assert MemberPrefix(a)[4..|MemberPrefix(a)| - 1] == a && MemberPrefix(b)[4..|MemberPrefix(b)| - 1] == b;
    assert BalancerTag(a)[7..] == a && BalancerTag(b)[7..] == b;
  }

  lemma {:induction false} BalancerOrigin(st: State, gs: seq<Group>, b: Balancer) returns (g: Group)
    requires b in Compiler.Balancers(st, gs)
    ensures g in gs && g.enabled && Groups.Validate(st, g).None? && b == BalancerFor(st, g)
  {
    if gs[0].enabled && Groups.Validate(st, gs[0]).None? && b == BalancerFor(st, gs[0]) {
      g := gs[0];
    } else {
      g := BalancerOrigin(st, gs[1..], b);
    }
  }

  /** A target leads to one choice at most. */
  lemma ReachesOne(st: State, nodeId: string, cfg: XrayConfig, t: Target, c: Choice, d: Choice)
    requires Inv(st) && Xray(st, nodeId) == Some(cfg)
    requires Reaches(st, nodeId, cfg, t, c) && Reaches(st, nodeId, cfg, t, d)
    ensures c == d
  {
    match t
    case ToOutbound(tag) =>
      var x :| x in cfg.outbounds && x.tag == tag && CarriedBy(st, nodeId, x, c);
      var y :| y in cfg.outbounds && y.tag == tag && CarriedBy(st, nodeId, y, d);
      EmittedTagsUnique(st, nodeId);
      UniqueItem(cfg.outbounds, x, y);
      CarriedByOne(st, nodeId, x, c, d);
    case ToBalancer(tag) =>
      var x :| x in cfg.balancers && x.tag == tag && x.selector == MemberPrefix(c.groupId);
      var y :| y in cfg.balancers && y.tag == tag && y.selector == MemberPrefix(d.groupId);
      var gs := Filter(st.groups, GroupOn(nodeId));
      var g := BalancerOrigin(st, gs, x);
      var h := BalancerOrigin(st, gs, y);
      PrefixInjective(g.id, h.id);
      PrefixInjective(c.groupId, d.groupId);
  }

  // ---------- one rule ----------

  /** An enabled outbound of the node is emitted as its item. */
  lemma OwnItem(st: State, nodeId: string, o: Outbound)
    requires o in st.outbounds && o.nodeId == nodeId && o.enabled
    ensures ItemOf(o) in AllItems(st, nodeId)
  {
    FilterMembers(st.outbounds, OutboundOn(nodeId));
    OutboundItemsFrom(Filter(st.outbounds, OutboundOn(nodeId)));
  }

  /** Which stored outbound a tag leads to: the enabled one of the node that has it. */
  lemma TagReaches(st: State, nodeId: string, cfg: XrayConfig, tag: string, id: string)
    requires Inv(st) && Xray(st, nodeId) == Some(cfg) && OutboundOf(st, id).Some?
    ensures Reaches(st, nodeId, cfg, ToOutbound(tag), Via(id)) <==>
            var o := OutboundOf(st, id).value; o.nodeId == nodeId && o.enabled && o.tag == tag
  {
    var o := OutboundOf(st, id).value;
    if o.nodeId == nodeId && o.enabled && o.tag == tag {
      OwnItem(st, nodeId, o);
      assert CarriedBy(st, nodeId, ItemOf(o), Via(id));
    }
  }

  /** Main result for outbounds: the target of a compiled rule leads where the rule says if and only if that is a
      built-in outbound or an outbound on the rule's own node. */
  lemma RuleReaches(st: State, r: Rule, cfg: XrayConfig)
    requires Inv(st) && r in st.rules && r.enabled && r.groupId == "" && Xray(st, r.nodeId) == Some(cfg)
    requires TargetOf(st, r.nodeId, r).Some?
    ensures Reaches(st, r.nodeId, cfg, TargetOf(st, r.nodeId, r).value, ChoiceOf(r)) <==>
            Groups.BuiltIn(r.outboundId) || OutboundOf(st, r.outboundId).value.nodeId == r.nodeId
  {
    if Groups.BuiltIn(r.outboundId) {
      var it := if r.outboundId == "direct" then BASE[0] else BASE[1];
      assert it in cfg.outbounds && CarriedBy(st, r.nodeId, it, ChoiceOf(r));
    } else {
      TagReaches(st, r.nodeId, cfg, OutboundOf(st, r.outboundId).value.tag, r.outboundId);
    }
  }

  /** An outbound that lies elsewhere: the rule's traffic leaves through whichever enabled outbound of the rule's node
      carries the tag, if any. */
  lemma StrayTarget(st: State, r: Rule, cfg: XrayConfig, id: string)
    requires Inv(st) && r in st.rules && r.enabled && r.groupId == "" && Xray(st, r.nodeId) == Some(cfg)
    requires TargetOf(st, r.nodeId, r).Some? && !Groups.BuiltIn(r.outboundId)
    requires OutboundOf(st, r.outboundId).value.nodeId != r.nodeId && OutboundOf(st, id).Some?
    ensures Reaches(st, r.nodeId, cfg, TargetOf(st, r.nodeId, r).value, Via(id)) <==>
            var o := OutboundOf(st, id).value;
            o.nodeId == r.nodeId && o.enabled && o.tag == OutboundOf(st, r.outboundId).value.tag
  {
    TagReaches(st, r.nodeId, cfg, OutboundOf(st, r.outboundId).value.tag, id);
  }

  /** Can the node serve the choice? A group needs its balancer: see BalancerEmitted. */
  predicate Served(st: State, nodeId: string, c: Choice) {
    c.Balanced? ==>
      NodeReady(st, nodeId) && GroupOf(st, c.groupId).Some? && !HasBlackhole(st, GroupOf(st, c.groupId).value)
  }

  lemma GroupReaches(st: State, r: Rule, cfg: XrayConfig)
    requires Inv(st) && r in st.rules && r.enabled && r.groupId != "" && Xray(st, r.nodeId) == Some(cfg)
    ensures TargetOf(st, r.nodeId, r).Some?
    ensures Reaches(st, r.nodeId, cfg, TargetOf(st, r.nodeId, r).value, ChoiceOf(r)) <==>
            Served(st, r.nodeId, ChoiceOf(r))
  {
    assert RuleFits(st, r);
    var g := GroupOf(st, r.groupId).value;
    var gs := Filter(st.groups, GroupOn(r.nodeId));
    BalancerEmitted(st, r.nodeId, r, g);
    ReadyIsForWork(st, r.nodeId);
    if b :| b in cfg.balancers && b.tag == BalancerTag(g.id) {
      var h := BalancerOrigin(st, gs, b);
      PrefixInjective(g.id, h.id);
      assert b.selector == MemberPrefix(g.id);
    }
  }

  /** A rule whose target is live leads where it says, as far as the node can serve it. */
  lemma LiveRuleReaches(st: State, r: Rule, cfg: XrayConfig)
    requires Inv(st) && r in st.rules && r.enabled && LiveOutbound(st.outbounds, r) && Xray(st, r.nodeId) == Some(cfg)
    ensures TargetOf(st, r.nodeId, r).Some?
    ensures Reaches(st, r.nodeId, cfg, TargetOf(st, r.nodeId, r).value, ChoiceOf(r)) <==>
            Served(st, r.nodeId, ChoiceOf(r))
  {
    if r.groupId != "" { GroupReaches(st, r, cfg); } else { RuleReaches(st, r, cfg); }
  }

  // ---------- traffic of users ----------

  /** With live targets the rules the compiler keeps are the enabled matching ones. */
  lemma LiveEligible(st: State, nodeId: string, q: Request, p: Patterns)
    requires Inv(st) && AllLive(st)
    ensures Filter(st.rules, Eligible(st, nodeId, q, p)) == Filter(st.rules, Applies(nodeId, q, p))
  {
    var e, a := Eligible(st, nodeId, q, p), Applies(nodeId, q, p);
    forall r | r in st.rules ensures e(r) == a(r) {
      if r.nodeId == nodeId && r.enabled { assert RuleFits(st, r) && LiveOutbound(st.outbounds, r); }
    }
    FilterAgree(st.rules, e, a);
  }

  /** First match over the whole configuration, health rules included. */
  lemma UserRulesDecide(st: State, nodeId: string, cfg: XrayConfig, c: Client, flow: Flow, p: Patterns)
    requires Inv(st) && LabelsInStep(st) && c in st.clients && Xray(st, nodeId) == Some(cfg)
    ensures Decides(st, nodeId, Request(c.inboundId, c.userId, flow), p, FirstMatch(cfg.rules, SeenThrough(c, flow), p))
  {
    IntegrityGivesNames(st);
    IdsFind(st.users, UserKey, c.userId);
    FirstMatchDecides(st, nodeId, Request(c.inboundId, c.userId, flow), p);
    HealthRulesTransparent(st, nodeId, cfg.probes, RoutingRules(st, nodeId), SeenThrough(c, flow), c.inboundId, p);
  }

  /** How traffic leaves: by its target, and without one through the first outbound of the configuration. */
  ghost predicate Leaves(st: State, nodeId: string, cfg: XrayConfig, hit: Option<Target>, c: Choice) {
    match hit
    case Some(t) => Reaches(st, nodeId, cfg, t, c)
    case None => cfg.outbounds != [] && CarriedBy(st, nodeId, cfg.outbounds[0], c)
  }

  /** Traffic that no rule chooses for goes out directly. */
  function OrDirect(c: Option<Choice>): Choice {
    match c case Some(x) => x case None => Direct
  }

  lemma LeavesOneWay(st: State, nodeId: string, cfg: XrayConfig, hit: Option<Target>, c: Choice, d: Choice)
    requires Inv(st) && Xray(st, nodeId) == Some(cfg) && Leaves(st, nodeId, cfg, hit, c) &&
             Leaves(st, nodeId, cfg, hit, d)
    ensures c == d
  {
    match hit
    case Some(t) => ReachesOne(st, nodeId, cfg, t, c, d);
    case None => CarriedByOne(st, nodeId, cfg.outbounds[0], c, d);
  }

  /** Main result: while targets are live and labels in step, traffic through a binding meets the administrator's
      choice: without a choosing rule it has no target and leaves directly; else it has the target of that rule, and
      leaves through the chosen outbound or group, and no other way, as far as the node can serve it. */
  lemma BindingRouted(st: State, nodeId: string, cfg: XrayConfig, c: Client, flow: Flow, p: Patterns)
    returns (choice: Option<Choice>)
    requires Inv(st) && AllLive(st) && LabelsInStep(st) && c in st.clients && Xray(st, nodeId) == Some(cfg)
    ensures Chooses(st, nodeId, Request(c.inboundId, c.userId, flow), p, choice)
    ensures var hit := FirstMatch(cfg.rules, SeenThrough(c, flow), p);
            && hit.Some? == choice.Some?
            && (Leaves(st, nodeId, cfg, hit, OrDirect(choice)) <==> Served(st, nodeId, OrDirect(choice)))
  {
    var q := Request(c.inboundId, c.userId, flow);
    UserRulesDecide(st, nodeId, cfg, c, flow, p);
    LiveEligible(st, nodeId, q, p);
    var rs := Filter(st.rules, Applies(nodeId, q, p));
    if rs == [] {
      choice := None;
    } else {
      var i: nat :| FirstLeast(rs, ByPriority, i) &&
        FirstMatch(cfg.rules, SeenThrough(c, flow), p) == TargetOf(st, nodeId, rs[i]);
      FilterMembers(st.rules, Applies(nodeId, q, p));
      assert rs[i] in rs;
      LiveRuleReaches(st, rs[i], cfg);
      choice := Some(ChoiceOf(rs[i]));
    }
  }

  // ---------- health probes ----------

  function CandidateKey(c: HealthPorts.Candidate): string { c.id }

  lemma {:induction false} CandidatesFrom(xs: seq<Outbound>, nodeId: string)
    ensures forall c | c in HealthPorts.CandidatesOf(xs, nodeId) ::
              exists o :: o in xs && HealthPorts.Probeable(o, nodeId) && c == HealthPorts.Candidate(o.id, o.tag)
  {
    if xs != [] {
      var init, last := xs[..|xs| - 1], xs[|xs| - 1];
      CandidatesFrom(init, nodeId);
      forall c | c in HealthPorts.CandidatesOf(xs, nodeId)
        ensures exists o :: o in xs && HealthPorts.Probeable(o, nodeId) && c == HealthPorts.Candidate(o.id, o.tag)
      {
        if c in HealthPorts.CandidatesOf(init, nodeId) {
          var o :| o in init && HealthPorts.Probeable(o, nodeId) && c == HealthPorts.Candidate(o.id, o.tag);
          assert o in xs;
        } else {
          assert last in xs;
        }
      }
    }
  }

  lemma {:induction false} CandidatesUnique(xs: seq<Outbound>, nodeId: string)
    requires Unique(xs, OutboundKey)
    ensures Unique(HealthPorts.CandidatesOf(xs, nodeId), CandidateKey)
  {
    if xs != [] {
      var n := |xs| - 1;
      var init, last := xs[..n], xs[n];
      var cs := HealthPorts.CandidatesOf(init, nodeId);
      CandidatesUnique(init, nodeId);
      CandidatesFrom(init, nodeId);
      if HealthPorts.Probeable(last, nodeId) {
        forall x, y | x in cs && y in [HealthPorts.Candidate(last.id, last.tag)]
          ensures CandidateKey(x) != CandidateKey(y)
        {
          var o :| o in init && HealthPorts.Probeable(o, nodeId) && x == HealthPorts.Candidate(o.id, o.tag);
          var i :| 0 <= i < n && xs[i] == o;
          assert OutboundKey(xs[i]) != OutboundKey(xs[n]);
        }
        UniqueConcat(cs, [HealthPorts.Candidate(last.id, last.tag)], CandidateKey);
      }
    }
  }

  /** The probe of an outbound that is stored under its identifier and tag and can be probed. */
  predicate ProbeFits(st: State, nodeId: string, x: HealthPorts.Probe) {
    && x.inboundTag == HealthPorts.HealthInboundTag(x.outboundId)
    && OutboundOf(st, x.outboundId).Some?
    && HealthPorts.Probeable(OutboundOf(st, x.outboundId).value, nodeId)
    && OutboundOf(st, x.outboundId).value.tag == x.outboundTag
  }

  lemma RankedFits(st: State, nodeId: string, c: HealthPorts.Candidate, port: int)
    requires Unique(st.outbounds, OutboundKey) && c in HealthPorts.CandidatesOf(st.outbounds, nodeId)
    ensures ProbeFits(st, nodeId, HealthPorts.ProbeAt(c, port))
  {
    CandidatesFrom(st.outbounds, nodeId);
    var o :| o in st.outbounds && HealthPorts.Probeable(o, nodeId) && c == HealthPorts.Candidate(o.id, o.tag);
    UniqueIn(st.outbounds, OutboundKey, o);
  }

  lemma RankedUnique(st: State, nodeId: string)
    requires Unique(st.outbounds, OutboundKey)
    ensures Unique(HealthPorts.Ranked(st, nodeId), CandidateKey)
    ensures forall c | c in HealthPorts.Ranked(st, nodeId) :: c in HealthPorts.CandidatesOf(st.outbounds, nodeId)
  {
    var cs, ranked := HealthPorts.CandidatesOf(st.outbounds, nodeId), HealthPorts.Ranked(st, nodeId);
    CandidatesUnique(st.outbounds, nodeId);
    SortUnique(cs, HealthPorts.ById, CandidateKey);
    forall c | c in ranked ensures c in cs { assert c in multiset(ranked); }
  }

  /** The probes of a node are for different outbounds, each with its own tag. */
  lemma ProbesFit(st: State, nodeId: string, ps: seq<HealthPorts.Probe>)
    requires Unique(st.outbounds, OutboundKey) && HealthPorts.Probes(st, nodeId) == Some(ps)
    ensures forall i | 0 <= i < |ps| :: ProbeFits(st, nodeId, ps[i])
    ensures forall i, j | 0 <= i < j < |ps| :: ps[i].outboundId != ps[j].outboundId
  {
    var ranked := HealthPorts.Ranked(st, nodeId);
    RankedUnique(st, nodeId);
    forall i | 0 <= i < |ps| ensures ProbeFits(st, nodeId, ps[i]) {
      RankedFits(st, nodeId, ranked[i], ps[i].port);
    }
    forall i, j | 0 <= i < j < |ps| ensures ps[i].outboundId != ps[j].outboundId {
      assert CandidateKey(ranked[i]) != CandidateKey(ranked[j]);
    }
  }

  /** Main result for probes: in the configuration of the node every probe leaves through the stored outbound it was
      made for, whatever the user rules say. */
  lemma ProbeReachesItsOutbound(st: State, nodeId: string, cfg: XrayConfig, k: nat, user: string, f: Flow, p: Patterns)
    requires Inv(st) && Xray(st, nodeId) == Some(cfg) && k < |cfg.probes|
    ensures var hit := FirstMatch(cfg.rules, Traffic(cfg.probes[k].inboundTag, user, f), p);
            hit.Some? && Reaches(st, nodeId, cfg, hit.value, Via(cfg.probes[k].outboundId))
  {
    var ps := cfg.probes;
    ProbesFit(st, nodeId, ps);
    assert ProbeFits(st, nodeId, ps[k]);
    ProbeMatched(ps, k, RoutingRules(st, nodeId), user, f, p);
    TagReaches(st, nodeId, cfg, ps[k].outboundTag, ps[k].outboundId);
  }
}
