/** When the target of every enabled rule is on the rule's node and enabled: which transactions keep that, and what it
    gives for agreement between store and agents. */
module LiveTargets {
  import opened Wrappers
  import opened Lists
  import opened Entities
  import Outbounds
  import Groups
  import Rules
  import opened Operations
  import opened Integrity
  import opened Rollback
  import opened Views
  import opened Deployment
  import opened Transactions
  import opened Acceptance

  /** With integrity this says that every enabled rule has a target it can be compiled to. */
  lemma AllLiveMeaning(st: State)
    requires Inv(st)
    ensures AllLive(st) <==> forall r | r in st.rules && r.enabled :: LiveTarget(st, r)
  {
    forall r | r in st.rules && r.enabled ensures LiveOutbound(st.outbounds, r) <==> LiveTarget(st, r) {
      assert RuleFits(st, r);
    }
  }

  predicate NamedByEnabled(rules: seq<Rule>, id: string) {
    exists r :: r in rules && r.enabled && r.groupId == "" && r.outboundId == id
  }

  lemma OutboundChangeKeeps(st: State, next: State, id: string)
    requires AllLive(st) && next.rules == st.rules
    requires forall j | j != id :: OutboundOf(next, j) == OutboundOf(st, j)
    requires forall r | r in st.rules && r.enabled && r.groupId == "" && r.outboundId == id && !Groups.BuiltIn(id) ::
               Available(next.outbounds, r.nodeId, id)
    ensures AllLive(next)
  {
    forall r | r in next.rules ensures LiveOutbound(next.outbounds, r) {
      assert LiveOutbound(st.outbounds, r);
      if r.outboundId != id { assert OutboundOf(next, r.outboundId) == OutboundOf(st, r.outboundId); }
    }
  }

  /** The update leaves the outbound on its node and enabled. */
  predicate Stays(st: State, op: Operation)
    requires op.UpdateOutbound?
  {
    match (OutboundOf(st, op.id), Outbounds.Normalize(op.outbound))
    case (Some(x), Ok(y)) => y.enabled && y.nodeId == x.nodeId
    case _ => true
  }

  lemma UpdatedRecord(st: State, op: Operation, now: Time)
    requires op.UpdateOutbound? && Forward(st, op, now).Ok?
    ensures var y := OutboundOf(Forward(st, op, now).value, op.id);
            && OutboundOf(st, op.id).Some? && y.Some?
            && y.value.nodeId == Outbounds.Normalize(op.outbound).value.nodeId
            && y.value.enabled == Outbounds.Normalize(op.outbound).value.enabled
  {
    FindReplace(st.outbounds, OutboundKey, op.id,
                Outbounds.Apply(OutboundOf(st, op.id).value, Outbounds.Normalize(op.outbound).value, op.passwordEnc,
                                now));
  }

  lemma UpdateKeepsLive(st: State, op: Operation, now: Time)
    requires op.UpdateOutbound? && Inv(st) && AllLive(st) && Forward(st, op, now).Ok?
    ensures AllLive(Forward(st, op, now).value) <==> Stays(st, op) || !NamedByEnabled(st.rules, op.id)
  {
    var next := Forward(st, op, now).value;
    ForwardShape(st, op, now);
    OutboundFind(st, op, next);
    UpdatedRecord(st, op, now);
    var x, y := OutboundOf(st, op.id).value, OutboundOf(next, op.id).value;
    assert !Groups.BuiltIn(op.id) by { assert OutboundOk(x, NodeIds(st)); }
    if Stays(st, op) || !NamedByEnabled(st.rules, op.id) {
      forall r | r in st.rules && r.enabled && r.groupId == "" && r.outboundId == op.id
        ensures Available(next.outbounds, r.nodeId, op.id)
      {
        assert NamedByEnabled(st.rules, op.id);
        assert LiveOutbound(st.outbounds, r);
      }
      OutboundChangeKeeps(st, next, op.id);
    }
    if AllLive(next) && NamedByEnabled(st.rules, op.id) {
      var r :| r in st.rules && r.enabled && r.groupId == "" && r.outboundId == op.id;
      assert LiveOutbound(st.outbounds, r) && LiveOutbound(next.outbounds, r);
    }
  }

  lemma OtherOutboundsKeepLive(st: State, op: Operation, now: Time)
    requires op.CreateOutbound? || op.EnableOutbound? || op.DeleteOutbound?
    requires Inv(st) && AllLive(st) && Fresh(st, op) && Forward(st, op, now).Ok?
    ensures AllLive(Forward(st, op, now).value)
  {
    var next := Forward(st, op, now).value;
    ForwardShape(st, op, now);
    OutboundFind(st, op, next);
    if op.EnableOutbound? {
      FindReplace(st.outbounds, OutboundKey, op.id, OutboundOf(st, op.id).value.(enabled := op.on, updatedAt := now));
    }
    forall r | r in st.rules && r.enabled && r.groupId == "" && r.outboundId == op.id && !Groups.BuiltIn(op.id)
      ensures Available(next.outbounds, r.nodeId, op.id)
    {
      assert LiveOutbound(st.outbounds, r);
      assert op.DeleteOutbound? ==> Outbounds.Targeted(st.rules, op.id, false);
      assert op.EnableOutbound? && !op.on ==> Outbounds.Targeted(st.rules, op.id, true);
    }
    OutboundChangeKeeps(st, next, op.id);
  }

  lemma ValidRuleIsLive(st: State, r: Rule)
    requires Rules.Validate(st, r).None?
    ensures LiveOutbound(st.outbounds, r)
  {
    assert Rules.TargetError(st, r).None?;
  }

  lemma RulesKeepLive(st: State, op: Operation, now: Time)
    requires op.CreateRule? || op.UpdateRule? || op.DeleteRule?
    requires AllLive(st) && Forward(st, op, now).Ok?
    ensures AllLive(Forward(st, op, now).value)
  {
    match op
    case CreateRule(id, x) =>
      ValidRuleIsLive(st, Rules.Normalize(x).value.(id := id, enabled := true, createdAt := now, updatedAt := now));
    case UpdateRule(id, x) =>
      var was := RuleOf(st, id).value;
      ValidRuleIsLive(st, Rules.Normalize(x).value.(id := was.id, createdAt := was.createdAt, updatedAt := now));
    case DeleteRule(id) => WithoutMembers(st.rules, RuleKey, id);
  }

  /** Main result: every transaction keeps the targets live, except an outbound update that moves away or disables an
      outbound which an enabled rule names. */
  lemma LiveKeptExact(st: State, op: Operation, now: Time)
    requires Inv(st) && AllLive(st) && Fresh(st, op) && Forward(st, op, now).Ok?
    ensures AllLive(Forward(st, op, now).value) <==>
            !(op.UpdateOutbound? && !Stays(st, op) && NamedByEnabled(st.rules, op.id))
  {
    if op.UpdateOutbound? {
      UpdateKeepsLive(st, op, now);
    } else if op.CreateOutbound? || op.EnableOutbound? || op.DeleteOutbound? {
      OtherOutboundsKeepLive(st, op, now);
    } else if op.CreateRule? || op.UpdateRule? || op.DeleteRule? {
      RulesKeepLive(st, op, now);
    } else {
      ForwardShape(st, op, now);
      assert Forward(st, op, now).value.rules == st.rules && Forward(st, op, now).value.outbounds == st.outbounds;
    }
  }

  lemma DriftKeepsLive(a: State, b: State, ns: set<string>)
    requires Drift(a, b, ns)
    ensures AllLive(a) <==> AllLive(b)
  {
    forall i | 0 <= i < |a.outbounds| ensures Restamped(a.outbounds[i], b.outbounds[i]) {
      assert RestampedIn(ns)(a.outbounds[i], b.outbounds[i]);
    }
    forall r | r in a.rules ensures LiveOutbound(a.outbounds, r) <==> LiveOutbound(b.outbounds, r) {
      SameKeys(a.outbounds, b.outbounds, OutboundKey, r.outboundId);
    }
  }

  /** A whole transaction, whatever its outcome, keeps the targets live unless it makes such an update. */
  lemma TransactKeepsLive(w: World, op: Operation, env: Env)
    requires Inv(w.st) && AllLive(w.st) && Fresh(w.st, op) && Covers(w.st, op, env)
    requires op.UpdateOutbound? && NamedByEnabled(w.st.rules, op.id) ==> Stays(w.st, op)
    ensures AllLive(Transact(w, op, env).0.st)
  {
    TransactState(w, op, env);
    var v, ns := Transact(w, op, env).0, NodeSet(DeployNodes(w.st, op));
    if Forward(w.st, op, env.now).Ok? {
      var next := Forward(w.st, op, env.now).value;
      LiveKeptExact(w.st, op, env.now);
      if Drift(next, v.st, ns) { DriftKeepsLive(next, v.st, ns); }
      if Drift(w.st, v.st, ns) { DriftKeepsLive(w.st, v.st, ns); }
    }
  }

  lemma RuleNodeDeployed(st: State, r: Rule, id: string, nodes: seq<string>)
    requires OutboundWithin(st, id, nodes) && !Groups.BuiltIn(id) && LiveOutbound(st.outbounds, r)
    requires r.enabled && r.groupId == "" && r.outboundId == id
    ensures r.nodeId in nodes
  {
  }

  /** A rule with a live target that names the outbound is deployed with it. */
  lemma NotNamedElsewhere(st: State, op: Operation, now: Time)
    requires op.UpdateOutbound? || op.EnableOutbound?
    requires Inv(st) && AllLive(st) && Fresh(st, op) && Forward(st, op, now).Ok?
    ensures !NamedElsewhere(st, op)
  {
    OutboundDeployed(st, op, now);
    assert !Groups.BuiltIn(op.id) by { assert OutboundOk(OutboundOf(st, op.id).value, NodeIds(st)); }
    forall r | r in st.rules && r.enabled && r.groupId == "" && r.outboundId == op.id
      ensures r.nodeId in DeployNodes(st, op)
    {
      RuleNodeDeployed(st, r, op.id, DeployNodes(st, op));
    }
  }

  lemma LiveIsUntouched(st: State, op: Operation, now: Time)
    requires Inv(st) && AllLive(st) && Fresh(st, op) && Forward(st, op, now).Ok?
    ensures ElsewhereUntouched(st, op)
  {
    if op.UpdateOutbound? || op.EnableOutbound? { NotNamedElsewhere(st, op, now); }
  }

  /** Main result: while the targets are live, every transaction that commits or rolls back completely leaves every node
      running what the store compiles to. */
  lemma LiveAgreement(w: World, op: Operation, env: Env)
    requires Inv(w.st) && AllLive(w.st) && Fresh(w.st, op) && Agree(w) && Covers(w.st, op, env)
    requires var r := Transact(w, op, env).1; r.Failed? ==> r == Failed(true, true)
    ensures Agree(Transact(w, op, env).0)
  {
    var r := Transact(w, op, env).1;
    if r.Committed? {
      TransactState(w, op, env);
      LiveIsUntouched(w.st, op, env.now);
    }
    TransactAgrees(w, op, env);
  }
}
