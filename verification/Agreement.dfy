/** When a committed outbound change leaves store and agents in agreement: exactly when no rule elsewhere sees it. */
module Agreement {
  import opened Wrappers
  import opened Lists
  import opened Sorting
  import opened Entities
  import Groups
  import HealthPorts
  import opened Compiler
  import opened Operations
  import opened Integrity
  import opened Rollback
  import opened Frames
  import opened Views
  import opened Deployment
  import opened Transactions

  lemma {:induction false} CompiledContains(st: State, n: string, rs: seq<Rule>, r: Rule)
    requires r in rs && r.enabled && TargetOf(st, n, r).Some?
    ensures RuleFor(st, r, TargetOf(st, n, r).value) in CompileRules(st, n, rs)
  {
    assert rs == [rs[0]] + rs[1..];
    if r != rs[0] { CompiledContains(st, n, rs[1..], r); }
  }

  lemma {:induction false} CompiledComesFrom(st: State, n: string, rs: seq<Rule>, x: XrayRule) returns (r: Rule)
    requires x in CompileRules(st, n, rs)
    ensures r in rs && r.enabled && x.ruleTag == RouteTag(r.id) && TargetOf(st, n, r) == Some(x.target)
  {
    if x in CompileRule(st, n, rs[0]) {
      r := rs[0];
    } else {
      r := CompiledComesFrom(st, n, rs[1..], x);
    }
  }

  lemma RouteTagInjective(a: string, b: string)
    requires RouteTag(a) == RouteTag(b)
    ensures a == b
  {
    assert RouteTag(a)[9..] == a && RouteTag(b)[9..] == b;
  }

  /** A compiled rule list tells the target of every rule it was compiled from. */
  lemma TargetCarries(a: State, b: State, n: string, r: Rule)
    requires a.rules == b.rules && Unique(a.rules, RuleKey) && RoutingRules(a, n) == RoutingRules(b, n)
    requires r in a.rules && r.nodeId == n && r.enabled && TargetOf(a, n, r).Some?
    ensures TargetOf(b, n, r) == TargetOf(a, n, r)
  {
    var sorted := StableSort(Filter(a.rules, RuleOn(n)), ByPriority);
    LocalRules(a, n);
    LocalRules(b, n);
    CompiledContains(a, n, sorted, r);
    var s := CompiledComesFrom(b, n, sorted, RuleFor(a, r, TargetOf(a, n, r).value));
    RouteTagInjective(s.id, r.id);
    UniqueIn(a.rules, RuleKey, r);
    UniqueIn(a.rules, RuleKey, s);
  }

  lemma RoutingTells(a: State, b: State, n: string, r: Rule)
    requires a.rules == b.rules && Unique(a.rules, RuleKey) && RoutingRules(a, n) == RoutingRules(b, n)
    requires r in a.rules && r.nodeId == n && r.enabled
    ensures TargetOf(b, n, r) == TargetOf(a, n, r)
  {
    if TargetOf(a, n, r).Some? {
      TargetCarries(a, b, n, r);
    } else if TargetOf(b, n, r).Some? {
      TargetCarries(b, a, n, r);
    }
  }

  lemma {:induction false} HealthRulesLength(ps: seq<HealthPorts.Probe>)
    ensures |HealthRules(ps)| == |ps|
  {
    if ps != [] { HealthRulesLength(ps[1..]); }
  }

  lemma SameXraySameRouting(a: State, b: State, n: string)
    requires Xray(a, n).Some? && Xray(a, n) == Xray(b, n)
    ensures RoutingRules(a, n) == RoutingRules(b, n)
  {
    var ps := Xray(a, n).value.probes;
    HealthRulesLength(ps);
    assert Xray(a, n).value.rules == HealthRules(ps) + RoutingRules(a, n);
    assert Xray(b, n).value.rules == HealthRules(ps) + RoutingRules(b, n);
    assert (HealthRules(ps) + RoutingRules(a, n))[|ps|..] == RoutingRules(a, n);
    assert (HealthRules(ps) + RoutingRules(b, n))[|ps|..] == RoutingRules(b, n);
  }

  lemma CommittedRuntime(w: World, op: Operation, env: Env, m: string)
    requires Covers(w.st, op, env) && Transact(w, op, env).1.Committed? && m !in DeployNodes(w.st, op)
    ensures Forward(w.st, op, env.now).Ok?
    ensures RuntimeOf(Transact(w, op, env).0, m) == RuntimeOf(w, m)
    ensures m in Transact(w, op, env).0.rt <==> m in w.rt
  {
    var next := Forward(w.st, op, env.now).value;
    DeployAllFrame(World(next, w.rt), DeployNodes(w.st, op), SyncsNative(op), env.first, m);
  }

  /** In step after the commit, an undeployed node still compiles to what it compiled to before it. */
  lemma UndeployedUnchanged(w: World, op: Operation, env: Env, m: string)
    requires Inv(w.st) && Fresh(w.st, op) && Agree(w) && Covers(w.st, op, env)
    requires Transact(w, op, env).1.Committed? && Agree(Transact(w, op, env).0)
    requires m in NodeIds(w.st) && m !in DeployNodes(w.st, op)
    ensures Xray(w.st, m).Some? && Xray(w.st, m) == Xray(Forward(w.st, op, env.now).value, m)
  {
    CommittedRuntime(w, op, env, m);
    var next, v := Forward(w.st, op, env.now).value, Transact(w, op, env).0;
    var ns := NodeSet(DeployNodes(w.st, op));
    NodesKept(w.st, op, env.now);
    TransactState(w, op, env);
    assert InStep(w, m) && InStep(v, m);
    DriftView(next, v.st, ns, m);
    ViewDeterminesRuntime(next, v.st, m);
  }

  lemma EffectiveTold(st: State, next: State, r: Rule, id: string)
    requires OutboundOf(st, id).Some? && OutboundOf(next, id).Some? && !Groups.BuiltIn(id)
    requires r.groupId == "" && r.outboundId == id && TargetOf(st, r.nodeId, r) == TargetOf(next, r.nodeId, r)
    ensures Effective(OutboundOf(st, id).value) == Effective(OutboundOf(next, id).value)
  {
  }

  predicate NamesElsewhere(st: State, op: Operation, r: Rule) {
    r in st.rules && r.enabled && r.groupId == "" && r.outboundId == op.id && r.nodeId !in DeployNodes(st, op)
  }

  /** A rule elsewhere that names the outbound pins the tag it compiles to. */
  lemma RulePins(w: World, op: Operation, env: Env, next: State, r: Rule)
    requires Inv(w.st) && Fresh(w.st, op) && Agree(w) && Covers(w.st, op, env)
    requires op.UpdateOutbound? || op.EnableOutbound?
    requires Transact(w, op, env).1.Committed? && Agree(Transact(w, op, env).0)
    requires Forward(w.st, op, env.now) == Ok(next)
    requires NamesElsewhere(w.st, op, r)
    ensures TargetOf(w.st, r.nodeId, r) == TargetOf(next, r.nodeId, r)
  {
    assert r.nodeId in NodeIds(w.st) by { assert RuleFits(w.st, r); }
    UndeployedUnchanged(w, op, env, r.nodeId);
    SameXraySameRouting(w.st, next, r.nodeId);
    assert next.rules == w.st.rules by { ForwardShape(w.st, op, env.now); }
    RoutingTells(w.st, next, r.nodeId, r);
  }

  lemma PinnedIsUntouched(st: State, op: Operation, now: Time, next: State)
    requires Inv(st) && Forward(st, op, now) == Ok(next) && (op.UpdateOutbound? || op.EnableOutbound?)
    requires forall r | NamesElsewhere(st, op, r) :: TargetOf(st, r.nodeId, r) == TargetOf(next, r.nodeId, r)
    ensures ElsewhereUntouched(st, op)
  {
    EffectiveChange(st, op, now);
    if NamedElsewhere(st, op) {
      var r :| NamesElsewhere(st, op, r);
      assert !Groups.BuiltIn(op.id) by { assert OutboundOk(OutboundOf(st, op.id).value, NodeIds(st)); }
      EffectiveTold(st, next, r, op.id);
    }
  }

  lemma AgreementNeeds(w: World, op: Operation, env: Env)
    requires Inv(w.st) && Fresh(w.st, op) && Agree(w) && Covers(w.st, op, env)
    requires op.UpdateOutbound? || op.EnableOutbound?
    requires Transact(w, op, env).1.Committed? && Agree(Transact(w, op, env).0)
    ensures ElsewhereUntouched(w.st, op)
  {
    var next := Forward(w.st, op, env.now).value;
    forall r | NamesElsewhere(w.st, op, r) ensures TargetOf(w.st, r.nodeId, r) == TargetOf(next, r.nodeId, r) {
      RulePins(w, op, env, next, r);
    }
    PinnedIsUntouched(w.st, op, env.now, next);
  }

  /** Main result: a committed transaction ends with every node in step if and only if the condition holds, which a
      caller can check beforehand: the change is no outbound update or enabling, or no enabled rule of an undeployed
      node names the outbound, or the tag such a rule compiles to stays the same. */
  lemma AgreementExact(w: World, op: Operation, env: Env)
    requires Inv(w.st) && Fresh(w.st, op) && Agree(w) && Covers(w.st, op, env)
    requires Transact(w, op, env).1.Committed?
    ensures Agree(Transact(w, op, env).0) <==> ElsewhereUntouched(w.st, op)
  {
    if ElsewhereUntouched(w.st, op) {
      TransactAgrees(w, op, env);
    } else if Agree(Transact(w, op, env).0) {
      AgreementNeeds(w, op, env);
    }
  }
}
