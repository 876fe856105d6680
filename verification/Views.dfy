/** Which nodes a transaction can affect: all others keep their configuration. */
module Views {
  import opened Wrappers
  import opened Lists
  import opened Text
  import opened Entities
  import Inbounds
  import Outbounds
  import Groups
  import Rules
  import opened Compiler
  import opened Operations
  import opened Integrity
  import opened Rollback
  import opened Frames

  // ---------- drift ----------

  lemma {:induction false} FilterPointwise<T>(xs: seq<T>, ys: seq<T>, p: T -> bool)
    requires |ys| == |xs| && forall i | 0 <= i < |xs| :: ys[i] == xs[i] || (!p(xs[i]) && !p(ys[i]))
    ensures Filter(xs, p) == Filter(ys, p)
  {
    if xs != [] { FilterPointwise(xs[1..], ys[1..], p); }
  }

  lemma {:induction false} ClientItemsSame(a: State, b: State, cs: seq<Client>, id: string)
    requires a.users == b.users
    ensures ClientItems(a, cs, id) == ClientItems(b, cs, id)
  {
    if cs != [] { ClientItemsSame(a, b, cs[1..], id); }
  }

  /** With the same users and clients, four filters and two lookups decide. */
  lemma SameViewFrom(a: State, b: State, n: string)
    requires a.nodes == b.nodes && a.users == b.users && a.clients == b.clients
    requires Filter(a.inbounds, InboundOn(n)) == Filter(b.inbounds, InboundOn(n))
    requires Filter(a.outbounds, OutboundOn(n)) == Filter(b.outbounds, OutboundOn(n))
    requires Filter(a.groups, GroupOn(n)) == Filter(b.groups, GroupOn(n))
    requires Filter(a.rules, RuleOn(n)) == Filter(b.rules, RuleOn(n))
    requires forall id :: LocalOutbound(a, n, id) == LocalOutbound(b, n, id)
    requires forall r | r in a.rules && r.nodeId == n && r.enabled :: TargetOf(a, n, r) == TargetOf(b, n, r)
    ensures SameView(a, b, n)
  {
    forall x | x in a.inbounds && x.nodeId == n
      ensures ClientItems(a, a.clients, x.id) == ClientItems(b, b.clients, x.id)
    {
      ClientItemsSame(a, b, a.clients, x.id);
    }
  }

  lemma DriftLookups(a: State, b: State, ns: set<string>, m: string, id: string)
    requires Drift(a, b, ns) && m !in ns
    ensures LocalOutbound(a, m, id) == LocalOutbound(b, m, id)
    ensures OutboundOf(a, id).Some? == OutboundOf(b, id).Some?
    ensures OutboundOf(a, id).Some? ==> Restamped(OutboundOf(a, id).value, OutboundOf(b, id).value)
  {
    forall i | 0 <= i < |a.outbounds| ensures Restamped(a.outbounds[i], b.outbounds[i]) {
      assert RestampedIn(ns)(a.outbounds[i], b.outbounds[i]);
    }
    SameKeys(a.outbounds, b.outbounds, OutboundKey, id);
    var p := IndexOf(a.outbounds, OutboundKey, id);
    if p < |a.outbounds| {
      assert RestampedIn(ns)(a.outbounds[p], b.outbounds[p]);
    }
  }

  /** Drift on some nodes is invisible on the others. */
  lemma DriftView(a: State, b: State, ns: set<string>, m: string)
    requires Drift(a, b, ns) && m !in ns
    ensures SameView(a, b, m)
  {
    forall i | 0 <= i < |a.inbounds|
      ensures b.inbounds[i] == a.inbounds[i] || (!InboundOn(m)(a.inbounds[i]) && !InboundOn(m)(b.inbounds[i]))
    {
      assert InboundDriftIn(ns)(a.inbounds[i], b.inbounds[i]);
    }
    FilterPointwise(a.inbounds, b.inbounds, InboundOn(m));
    forall i | 0 <= i < |a.outbounds|
      ensures b.outbounds[i] == a.outbounds[i] || (!OutboundOn(m)(a.outbounds[i]) && !OutboundOn(m)(b.outbounds[i]))
    {
      assert RestampedIn(ns)(a.outbounds[i], b.outbounds[i]);
    }
    FilterPointwise(a.outbounds, b.outbounds, OutboundOn(m));
    forall id ensures LocalOutbound(a, m, id) == LocalOutbound(b, m, id) { DriftLookups(a, b, ns, m, id); }
    forall r | r in a.rules && r.nodeId == m && r.enabled ensures TargetOf(a, m, r) == TargetOf(b, m, r) {
      DriftLookups(a, b, ns, m, r.outboundId);
    }
    SameViewFrom(a, b, m);
  }

  // ---------- inbounds ----------

  /** The record before and after lies on the given nodes. */
  predicate InboundWithin(st: State, id: string, ns: seq<string>) {
    match InboundOf(st, id) case None => true case Some(x) => x.nodeId in ns
  }

  predicate OutboundWithin(st: State, id: string, ns: seq<string>) {
    match OutboundOf(st, id) case None => true case Some(x) => x.nodeId in ns
  }

  predicate GroupWithin(st: State, id: string, ns: seq<string>) {
    match GroupOf(st, id) case None => true case Some(x) => x.nodeId in ns
  }

  predicate RuleWithin(st: State, id: string, ns: seq<string>) {
    match RuleOf(st, id) case None => true case Some(x) => x.nodeId in ns
  }

  lemma FilterAppended<T>(xs: seq<T>, y: T, p: T -> bool)
    requires !p(y)
    ensures Filter(xs + [y], p) == Filter(xs, p)
  {
    FilterConcat(xs, [y], p);
    assert [y][1..] == [];
    assert Filter([y], p) == [];
  }

  lemma FilterDropped<T>(xs: seq<T>, key: T -> string, id: string, p: T -> bool)
    requires Unique(xs, key) && (Find(xs, key, id).Some? ==> !p(Find(xs, key, id).value))
    ensures Filter(Without(xs, key, id), p) == Filter(xs, p)
  {
    forall x | x in xs && key(x) == id ensures !p(x) { UniqueIn(xs, key, x); }
    FilterWithout(xs, key, id, p);
  }

  lemma {:induction false} ClientItemsWithout(st: State, cs: seq<Client>, dropped: string, id: string)
    requires id != dropped
    ensures ClientItems(st, Filter(cs, Inbounds.ClientOf(dropped)), id) == ClientItems(st, cs, id)
  {
    if cs != [] {
      var c, rest := cs[0], Filter(cs[1..], Inbounds.ClientOf(dropped));
      ClientItemsWithout(st, cs[1..], dropped, id);
      if c.inboundId != dropped {
        assert ([c] + rest)[1..] == rest;
      } else {
        assert Filter(cs, Inbounds.ClientOf(dropped)) == rest;
      }
    }
  }

  lemma OnlyInbounds(st: State, next: State, m: string)
    requires next == st.(inbounds := next.inbounds)
    requires Filter(st.inbounds, InboundOn(m)) == Filter(next.inbounds, InboundOn(m))
    ensures SameView(st, next, m)
  {
    forall id ensures LocalOutbound(st, m, id) == LocalOutbound(next, m, id) {}
    forall r: Rule ensures TargetOf(st, m, r) == TargetOf(next, m, r) {}
    SameViewFrom(st, next, m);
  }

  lemma InboundView(st: State, op: Operation, next: State, m: string)
    requires op.CreateInbound? || op.UpdateInbound? || op.EnableInbound?
    requires IdsUnique(st) && Fresh(st, op) && Shape(st, op, next)
    requires InboundWithin(st, op.id, DeployNodes(st, op)) && InboundWithin(next, op.id, DeployNodes(st, op))
    requires m !in DeployNodes(st, op)
    ensures SameView(st, next, m)
  {
    if op.CreateInbound? {
      var y: Inbound :| y.id == op.id && next == st.(inbounds := st.inbounds + [y]);
      FindAppend(st.inbounds, InboundKey, y);
      FilterAppended(st.inbounds, y, InboundOn(m));
    } else {
      FilterReplace(st.inbounds, InboundKey, op.id, InboundOf(next, op.id).value, InboundOn(m));
    }
    OnlyInbounds(st, next, m);
  }

  /** The bindings of an inbound do not change when another inbound goes with its own. */
  lemma OtherBindings(st: State, next: State, dropped: string, id: string)
    requires next.users == st.users && next.clients == Filter(st.clients, Inbounds.ClientOf(dropped)) && id != dropped
    ensures ClientItems(st, st.clients, id) == ClientItems(next, next.clients, id)
  {
    ClientItemsSame(st, next, st.clients, id);
    ClientItemsWithout(next, st.clients, dropped, id);
  }

  lemma InboundDeleteView(st: State, op: Operation, next: State, m: string)
    requires op.DeleteInbound? && IdsUnique(st) && Shape(st, op, next)
    requires InboundWithin(st, op.id, DeployNodes(st, op)) && m !in DeployNodes(st, op)
    ensures SameView(st, next, m)
  {
    FilterDropped(st.inbounds, InboundKey, op.id, InboundOn(m));
    forall x | x in st.inbounds && x.nodeId == m
      ensures ClientItems(st, st.clients, x.id) == ClientItems(next, next.clients, x.id)
    {
      UniqueIn(st.inbounds, InboundKey, x);
      OtherBindings(st, next, op.id, x.id);
    }
  }

  // ---------- outbounds ----------

  /** The tag a rule that names the outbound compiles to; None when the rule is skipped. */
  function Effective(x: Outbound): Option<string> {
    if x.enabled then Some(x.tag) else None
  }

  /** An enabled rule of an undeployed node names the outbound. */
  predicate NamedElsewhere(st: State, op: Operation) {
    exists r :: r in st.rules && r.enabled && r.groupId == "" && r.outboundId == op.id &&
        r.nodeId !in DeployNodes(st, op)
  }

  lemma OutboundFind(st: State, op: Operation, next: State)
    requires op.CreateOutbound? || op.UpdateOutbound? || op.EnableOutbound? || op.DeleteOutbound?
    requires IdsUnique(st) && Fresh(st, op) && Shape(st, op, next)
    ensures forall id | id != op.id :: OutboundOf(next, id) == OutboundOf(st, id)
    ensures op.CreateOutbound? ==> OutboundOf(st, op.id).None? && OutboundOf(next, op.id).Some?
    ensures op.DeleteOutbound? ==> OutboundOf(next, op.id).None?
  {
    if op.CreateOutbound? {
      var y: Outbound :| y.id == op.id && next == st.(outbounds := st.outbounds + [y]);
      FindAppend(st.outbounds, OutboundKey, y);
    } else if op.DeleteOutbound? {
      FindWithout(st.outbounds, OutboundKey, op.id);
    } else {
      FindReplace(st.outbounds, OutboundKey, op.id, OutboundOf(next, op.id).value);
    }
  }

  lemma OutboundFilter(st: State, op: Operation, next: State, m: string)
    requires op.CreateOutbound? || op.UpdateOutbound? || op.EnableOutbound? || op.DeleteOutbound?
    requires IdsUnique(st) && Fresh(st, op) && Shape(st, op, next)
    requires OutboundWithin(st, op.id, DeployNodes(st, op)) && OutboundWithin(next, op.id, DeployNodes(st, op))
    requires m !in DeployNodes(st, op)
    ensures Filter(st.outbounds, OutboundOn(m)) == Filter(next.outbounds, OutboundOn(m))
  {
    if op.CreateOutbound? {
      var y: Outbound :| y.id == op.id && next == st.(outbounds := st.outbounds + [y]);
      FindAppend(st.outbounds, OutboundKey, y);
      FilterAppended(st.outbounds, y, OutboundOn(m));
    } else if op.DeleteOutbound? {
      FilterDropped(st.outbounds, OutboundKey, op.id, OutboundOn(m));
    } else {
      FilterReplace(st.outbounds, OutboundKey, op.id, OutboundOf(next, op.id).value, OutboundOn(m));
    }
  }

  lemma OutboundView(st: State, op: Operation, next: State, m: string)
    requires op.CreateOutbound? || op.UpdateOutbound? || op.EnableOutbound? || op.DeleteOutbound?
    requires IdsUnique(st) && Fresh(st, op) && Shape(st, op, next)
    requires OutboundWithin(st, op.id, DeployNodes(st, op)) && OutboundWithin(next, op.id, DeployNodes(st, op))
    requires m !in DeployNodes(st, op)
    requires forall r | r in st.rules && r.nodeId == m && r.enabled :: TargetOf(st, m, r) == TargetOf(next, m, r)
    ensures SameView(st, next, m)
  {
    OutboundFind(st, op, next);
    OutboundFilter(st, op, next, m);
    forall id ensures LocalOutbound(st, m, id) == LocalOutbound(next, m, id) {
      if id != op.id { assert OutboundOf(next, id) == OutboundOf(st, id); }
    }
    SameViewFrom(st, next, m);
  }

  // ---------- groups and rules ----------

  lemma GroupFind(st: State, op: Operation, next: State)
    requires op.CreateGroup? || op.UpdateGroup? || op.DeleteGroup?
    requires IdsUnique(st) && Fresh(st, op) && Shape(st, op, next)
    ensures forall id | id != op.id :: GroupOf(next, id) == GroupOf(st, id)
  {
    if op.CreateGroup? {
      var y: Group :| y.id == op.id && next == st.(groups := st.groups + [y]);
      FindAppend(st.groups, GroupKey, y);
    } else if op.DeleteGroup? {
      FindWithout(st.groups, GroupKey, op.id);
    } else {
      FindReplace(st.groups, GroupKey, op.id, GroupOf(next, op.id).value);
    }
  }

  lemma GroupFilter(st: State, op: Operation, next: State, m: string)
    requires op.CreateGroup? || op.UpdateGroup? || op.DeleteGroup?
    requires IdsUnique(st) && Fresh(st, op) && Shape(st, op, next)
    requires GroupWithin(st, op.id, DeployNodes(st, op)) && GroupWithin(next, op.id, DeployNodes(st, op))
    requires m !in DeployNodes(st, op)
    ensures Filter(st.groups, GroupOn(m)) == Filter(next.groups, GroupOn(m))
  {
    if op.CreateGroup? {
      var y: Group :| y.id == op.id && next == st.(groups := st.groups + [y]);
      FindAppend(st.groups, GroupKey, y);
      FilterAppended(st.groups, y, GroupOn(m));
    } else if op.DeleteGroup? {
      FilterDropped(st.groups, GroupKey, op.id, GroupOn(m));
    } else {
      FilterReplace(st.groups, GroupKey, op.id, GroupOf(next, op.id).value, GroupOn(m));
    }
  }

  /** How a rule's compiled target depends on the one group it names. */
  lemma TargetByGroup(st: State, next: State, m: string, r: Rule)
    requires next.outbounds == st.outbounds
    requires GroupOf(next, r.groupId) == GroupOf(st, r.groupId) ||
             ((GroupOf(st, r.groupId).Some? ==> GroupOf(st, r.groupId).value.nodeId != m) &&
              (GroupOf(next, r.groupId).Some? ==> GroupOf(next, r.groupId).value.nodeId != m))
    ensures TargetOf(st, m, r) == TargetOf(next, m, r)
  {
  }

  lemma GroupView(st: State, op: Operation, next: State, m: string)
    requires op.CreateGroup? || op.UpdateGroup? || op.DeleteGroup?
    requires IdsUnique(st) && Fresh(st, op) && Shape(st, op, next)
    requires GroupWithin(st, op.id, DeployNodes(st, op)) && GroupWithin(next, op.id, DeployNodes(st, op))
    requires m !in DeployNodes(st, op)
    ensures SameView(st, next, m)
  {
    GroupFilter(st, op, next, m);
    GroupFind(st, op, next);
    forall r | r in st.rules && r.nodeId == m && r.enabled ensures TargetOf(st, m, r) == TargetOf(next, m, r) {
      if r.groupId != op.id { assert GroupOf(next, r.groupId) == GroupOf(st, r.groupId); }
      TargetByGroup(st, next, m, r);
    }
    SameViewFrom(st, next, m);
  }

  lemma RuleFilter(st: State, op: Operation, next: State, m: string)
    requires op.CreateRule? || op.UpdateRule? || op.DeleteRule?
    requires IdsUnique(st) && Fresh(st, op) && Shape(st, op, next)
    requires RuleWithin(st, op.id, DeployNodes(st, op)) && RuleWithin(next, op.id, DeployNodes(st, op))
    requires m !in DeployNodes(st, op)
    ensures Filter(st.rules, RuleOn(m)) == Filter(next.rules, RuleOn(m))
  {
    if op.CreateRule? {
      var y: Rule :| y.id == op.id && next == st.(rules := st.rules + [y]);
      FindAppend(st.rules, RuleKey, y);
      FilterAppended(st.rules, y, RuleOn(m));
    } else if op.DeleteRule? {
      FilterDropped(st.rules, RuleKey, op.id, RuleOn(m));
    } else {
      FilterReplace(st.rules, RuleKey, op.id, RuleOf(next, op.id).value, RuleOn(m));
    }
  }

  lemma RuleView(st: State, op: Operation, next: State, m: string)
    requires op.CreateRule? || op.UpdateRule? || op.DeleteRule?
    requires IdsUnique(st) && Fresh(st, op) && Shape(st, op, next)
    requires RuleWithin(st, op.id, DeployNodes(st, op)) && RuleWithin(next, op.id, DeployNodes(st, op))
    requires m !in DeployNodes(st, op)
    ensures SameView(st, next, m)
  {
    RuleFilter(st, op, next, m);
    assert next == st.(rules := next.rules);
    forall r | r in st.rules && r.nodeId == m && r.enabled ensures TargetOf(st, m, r) == TargetOf(next, m, r) {
      TargetByGroup(st, next, m, r);
    }
    SameViewFrom(st, next, m);
  }

  // ---------- old and new records lie on the deployed nodes ----------

  lemma InboundUpdateDeployed(st: State, op: Operation, now: Time)
    requires op.UpdateInbound? && Inv(st) && Forward(st, op, now).Ok?
    ensures InboundWithin(st, op.id, DeployNodes(st, op))
    ensures InboundWithin(Forward(st, op, now).value, op.id, DeployNodes(st, op))
  {
    var x := InboundOf(st, op.id);
    FindReplace(st.inbounds, InboundKey, op.id, Inbounds.Apply(x.value, Inbounds.Normalize(op.inbound).value, now));
    NodeIdsNonEmpty(st, x.value.nodeId);
    NodeIdsNonEmpty(st, op.inbound.nodeId);
  }

  lemma InboundDeployed(st: State, op: Operation, now: Time)
    requires op.CreateInbound? || op.UpdateInbound? || op.EnableInbound? || op.DeleteInbound?
    requires Inv(st) && Fresh(st, op) && Forward(st, op, now).Ok?
    ensures InboundWithin(st, op.id, DeployNodes(st, op))
    ensures InboundWithin(Forward(st, op, now).value, op.id, DeployNodes(st, op))
  {
    if op.CreateInbound? {
      FindAppend(st.inbounds, InboundKey, Inbounds.FromInput(op.id, Inbounds.Normalize(op.inbound).value, now));
    } else if op.DeleteInbound? {
      FindWithout(st.inbounds, InboundKey, op.id);
    } else if op.UpdateInbound? {
      InboundUpdateDeployed(st, op, now);
    } else {
      var x := InboundOf(st, op.id).value;
      FindReplace(st.inbounds, InboundKey, op.id,
                  x.(enabled := op.on, status := if op.on then "configured" else "disabled", updatedAt := now));
    }
  }

  lemma NodeIdsNonEmpty(st: State, id: string)
    requires Inv(st)
    ensures id in NodeIds(st) ==> id != ""
    ensures NodeOf(st, id).Some? ==> id != ""
  {
    IdsFind(st.nodes, NodeKey, id);
  }

  lemma OutboundDeployed(st: State, op: Operation, now: Time)
    requires op.CreateOutbound? || op.UpdateOutbound? || op.EnableOutbound? || op.DeleteOutbound?
    requires Inv(st) && Fresh(st, op) && Forward(st, op, now).Ok?
    ensures OutboundWithin(st, op.id, DeployNodes(st, op))
    ensures OutboundWithin(Forward(st, op, now).value, op.id, DeployNodes(st, op))
  {
    var x := OutboundOf(st, op.id);
    if op.CreateOutbound? {
      FindAppend(st.outbounds, OutboundKey,
                 Outbounds.FromInput(op.id, Outbounds.Normalize(op.outbound).value, op.passwordEnc, now));
    } else if op.DeleteOutbound? {
      FindWithout(st.outbounds, OutboundKey, op.id);
    } else if op.UpdateOutbound? {
      FindReplace(st.outbounds, OutboundKey, op.id,
                  Outbounds.Apply(x.value, Outbounds.Normalize(op.outbound).value, op.passwordEnc, now));
      assert OutboundOk(x.value, NodeIds(st));
      NodeIdsNonEmpty(st, x.value.nodeId);
      NodeIdsNonEmpty(st, Trim(op.outbound.nodeId));
    } else {
      FindReplace(st.outbounds, OutboundKey, op.id, x.value.(enabled := op.on, updatedAt := now));
    }
  }

  lemma GroupDeployed(st: State, op: Operation, now: Time)
    requires op.CreateGroup? || op.UpdateGroup? || op.DeleteGroup?
    requires Inv(st) && Fresh(st, op) && Forward(st, op, now).Ok?
    ensures GroupWithin(st, op.id, DeployNodes(st, op))
    ensures GroupWithin(Forward(st, op, now).value, op.id, DeployNodes(st, op))
  {
    var x := GroupOf(st, op.id);
    if op.CreateGroup? {
      FindAppend(st.groups, GroupKey,
                 Groups.Normalize(op.group).value.(id := op.id, enabled := true, createdAt := now, updatedAt := now));
    } else if op.DeleteGroup? {
      FindWithout(st.groups, GroupKey, op.id);
    } else {
      FindReplace(st.groups, GroupKey, op.id,
                  Groups.Normalize(op.group).value.(id := x.value.id, createdAt := x.value.createdAt,
                      updatedAt := now));
      assert GroupOk(x.value, NodeIds(st), st.outbounds);
      NodeIdsNonEmpty(st, x.value.nodeId);
      NodeIdsNonEmpty(st, Trim(op.group.nodeId));
    }
  }

  lemma RuleDeployed(st: State, op: Operation, now: Time)
    requires op.CreateRule? || op.UpdateRule? || op.DeleteRule?
    requires Inv(st) && Fresh(st, op) && Forward(st, op, now).Ok?
    ensures RuleWithin(st, op.id, DeployNodes(st, op))
    ensures RuleWithin(Forward(st, op, now).value, op.id, DeployNodes(st, op))
  {
    var x := RuleOf(st, op.id);
    if op.CreateRule? {
      FindAppend(st.rules, RuleKey,
                 Rules.Normalize(op.rule).value.(id := op.id, enabled := true, createdAt := now, updatedAt := now));
    } else if op.DeleteRule? {
      FindWithout(st.rules, RuleKey, op.id);
    } else {
      FindReplace(st.rules, RuleKey, op.id,
                  Rules.Normalize(op.rule).value.(id := x.value.id, createdAt := x.value.createdAt, updatedAt := now));
      assert RuleFits(st, x.value);
      NodeIdsNonEmpty(st, x.value.nodeId);
      NodeIdsNonEmpty(st, Trim(op.rule.nodeId));
    }
  }

  // ---------- the transaction as a whole ----------

  /** Before the call: the change leaves alone every enabled rule of an undeployed node that names the outbound,
      because no such rule exists or because the tag such a rule compiles to stays the same. */
  predicate ElsewhereUntouched(st: State, op: Operation) {
    if op.UpdateOutbound? then
      match (OutboundOf(st, op.id), Outbounds.Normalize(op.outbound))
      case (Some(x), Ok(y)) => !NamedElsewhere(st, op) || Effective(x) == (if y.enabled then Some(y.tag) else None)
      case _ => true
    else if op.EnableOutbound? then
      match OutboundOf(st, op.id)
      case Some(x) => !NamedElsewhere(st, op) || x.enabled == op.on
      case None => true
    else true
  }

  lemma EffectiveChange(st: State, op: Operation, now: Time)
    requires op.UpdateOutbound? || op.EnableOutbound?
    requires Forward(st, op, now).Ok?
    ensures OutboundOf(st, op.id).Some? && OutboundOf(Forward(st, op, now).value, op.id).Some?
    ensures ElsewhereUntouched(st, op) <==>
            !NamedElsewhere(st, op) ||
            Effective(OutboundOf(st, op.id).value) == Effective(OutboundOf(Forward(st, op, now).value, op.id).value)
  {
    var x := OutboundOf(st, op.id).value;
    if op.UpdateOutbound? {
      FindReplace(st.outbounds, OutboundKey, op.id,
                  Outbounds.Apply(x, Outbounds.Normalize(op.outbound).value, op.passwordEnc, now));
    } else {
      FindReplace(st.outbounds, OutboundKey, op.id, x.(enabled := op.on, updatedAt := now));
    }
  }

  /** How a rule's compiled target depends on the one outbound it names. */
  lemma TargetByOutbound(st: State, next: State, m: string, r: Rule)
    requires next.groups == st.groups
    requires r.groupId == "" && !Groups.BuiltIn(r.outboundId) ==>
               && OutboundOf(st, r.outboundId).Some? && OutboundOf(next, r.outboundId).Some?
               && Effective(OutboundOf(st, r.outboundId).value) == Effective(OutboundOf(next, r.outboundId).value)
    ensures TargetOf(st, m, r) == TargetOf(next, m, r)
  {
  }

  lemma TargetsElsewhere(st: State, op: Operation, now: Time, next: State, m: string)
    requires op.CreateOutbound? || op.UpdateOutbound? || op.EnableOutbound? || op.DeleteOutbound?
    requires Inv(st) && Fresh(st, op) && Forward(st, op, now) == Ok(next) && Shape(st, op, next)
    requires m !in DeployNodes(st, op) && ElsewhereUntouched(st, op)
    ensures forall r | r in st.rules && r.nodeId == m && r.enabled :: TargetOf(st, m, r) == TargetOf(next, m, r)
  {
    OutboundFind(st, op, next);
    if op.UpdateOutbound? || op.EnableOutbound? { EffectiveChange(st, op, now); }
    forall r | r in st.rules && r.nodeId == m && r.enabled ensures TargetOf(st, m, r) == TargetOf(next, m, r) {
      assert RuleTargetOk(r, OutboundIds(st), st.groups) by { assert RuleFits(st, r); }
      IdsFind(st.outbounds, OutboundKey, r.outboundId);
      if r.groupId == "" && !Groups.BuiltIn(r.outboundId) {
        if r.outboundId == op.id {
          assert op.DeleteOutbound? ==> Outbounds.Targeted(st.rules, op.id, false);
          assert NamedElsewhere(st, op);
        }
      }
      TargetByOutbound(st, next, m, r);
    }
  }

  /** Frame: every node outside the deployed ones compiles to what it compiled to before. */
  lemma OtherNodesKeep(st: State, op: Operation, now: Time, next: State, m: string)
    requires Inv(st) && Fresh(st, op) && Forward(st, op, now) == Ok(next)
    requires m !in DeployNodes(st, op) && ElsewhereUntouched(st, op)
    ensures Native(st, m) == Native(next, m) && Xray(st, m) == Xray(next, m)
  {
    ForwardShape(st, op, now);
    if op.CreateInbound? || op.UpdateInbound? || op.EnableInbound? {
      InboundDeployed(st, op, now);
      InboundView(st, op, next, m);
    } else if op.DeleteInbound? {
      InboundDeployed(st, op, now);
      InboundDeleteView(st, op, next, m);
    } else if op.CreateOutbound? || op.UpdateOutbound? || op.EnableOutbound? || op.DeleteOutbound? {
      OutboundDeployed(st, op, now);
      TargetsElsewhere(st, op, now, next, m);
      OutboundView(st, op, next, m);
    } else if op.CreateGroup? || op.UpdateGroup? || op.DeleteGroup? {
      GroupDeployed(st, op, now);
      GroupView(st, op, next, m);
    } else {
      RuleDeployed(st, op, now);
      RuleView(st, op, next, m);
    }
    ViewDeterminesRuntime(st, next, m);
  }
}
