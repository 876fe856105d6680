/** The rollback of a deploying transaction is exact. */
module Rollback {
  import opened Wrappers
  import opened Lists
  import opened Entities
  import Inbounds
  import Outbounds
  import Groups
  import Rules
  import opened Operations
  import opened Integrity

  /** What a deploy may write into the store: an inbound's status, and the keys that an enabled REALITY or Shadowsocks
      inbound lacked. */
  predicate InboundDrift(a: Inbound, b: Inbound) {
    && b == a.(status := b.status, realityKey := b.realityKey, ssPassword := b.ssPassword)
    && (b.realityKey != a.realityKey ==> a.enabled && a.tlsMode == "reality" && a.realityKey == "")
    && (b.ssPassword != a.ssPassword ==> a.enabled && a.protocol == "shadowsocks" && a.ssPassword == "")
  }

  /** ... and only on inbounds of the given nodes. */
  function InboundDriftIn(ns: set<string>): (Inbound, Inbound) -> bool {
    (a: Inbound, b: Inbound) => InboundDrift(a, b) && (a.nodeId !in ns ==> b == a)
  }

  predicate Restamped(a: Outbound, b: Outbound) {
    b == a.(updatedAt := b.updatedAt)
  }

  /** Equal up to the time of the last update, which only records of the given nodes change. */
  function RestampedIn(ns: set<string>): (Outbound, Outbound) -> bool {
    (a: Outbound, b: Outbound) => Restamped(a, b) && (a.nodeId !in ns ==> b == a)
  }

  /** Same content in the same order in every collection, except for the fields above on the given nodes. */
  predicate Drift(a: State, b: State, ns: set<string>) {
    && b == a.(inbounds := b.inbounds, outbounds := b.outbounds)
    && Pointwise(a.inbounds, b.inbounds, InboundDriftIn(ns))
    && Pointwise(a.outbounds, b.outbounds, RestampedIn(ns))
  }

  lemma DriftTransitive(a: State, b: State, c: State, ns: set<string>)
    requires Drift(a, b, ns) && Drift(b, c, ns)
    ensures Drift(a, c, ns)
  {
    var i, o := InboundDriftIn(ns), RestampedIn(ns);
    forall k | 0 <= k < |a.inbounds| ensures i(a.inbounds[k], c.inbounds[k]) {
      assert i(a.inbounds[k], b.inbounds[k]) && i(b.inbounds[k], c.inbounds[k]);
    }
    forall k | 0 <= k < |a.outbounds| ensures o(a.outbounds[k], c.outbounds[k]) {
      assert o(a.outbounds[k], b.outbounds[k]) && o(b.outbounds[k], c.outbounds[k]);
    }
  }

  lemma DriftWiden(a: State, b: State, ns: set<string>, ms: set<string>)
    requires Drift(a, b, ns) && ns <= ms
    ensures Drift(a, b, ms)
  {
    forall k | 0 <= k < |a.inbounds| ensures InboundDriftIn(ms)(a.inbounds[k], b.inbounds[k]) {
      assert InboundDriftIn(ns)(a.inbounds[k], b.inbounds[k]);
    }
    forall k | 0 <= k < |a.outbounds| ensures RestampedIn(ms)(a.outbounds[k], b.outbounds[k]) {
      assert RestampedIn(ns)(a.outbounds[k], b.outbounds[k]);
    }
  }

  // ---------- undoing one edit of a list ----------

  ghost predicate Keeps<T(!new)>(key: T -> string, rel: (T, T) -> bool) {
    (forall x :: rel(x, x)) && (forall x, y :: rel(x, y) ==> key(x) == key(y))
  }

  /** Append, any drift, delete by identifier. */
  lemma UndoAppend<T(!new)>(xs: seq<T>, y: T, ys: seq<T>, key: T -> string, rel: (T, T) -> bool)
    requires Keeps(key, rel) && Unique(xs, key) && Find(xs, key, key(y)).None? && Pointwise(xs + [y], ys, rel)
    ensures Pointwise(xs, Without(ys, key, key(y)), rel)
  {
    FindAppend(xs, key, y);
    var zs := xs + [y];
    forall i | 0 <= i < |zs| ensures key(ys[i]) == key(zs[i]) { assert rel(zs[i], ys[i]); }
    WithoutUnique(ys, key, |xs|);
    assert ys[..|xs|] + ys[|xs| + 1..] == ys[..|xs|];
    forall i | 0 <= i < |xs| ensures rel(xs[i], ys[i]) { assert rel(zs[i], ys[i]); }
  }

  /** Overwrite, any drift, overwrite with the old record. */
  lemma UndoReplace<T(!new)>(xs: seq<T>, id: string, y: T, ys: seq<T>, key: T -> string, rel: (T, T) -> bool)
    requires Keeps(key, rel) && Find(xs, key, id).Some? && key(y) == id && Pointwise(Replace(xs, key, id, y), ys, rel)
    ensures Find(ys, key, id).Some? && rel(y, Find(ys, key, id).value)
    ensures forall x | rel(Find(xs, key, id).value, x) :: Pointwise(xs, Replace(ys, key, id, x), rel)
  {
    var zs, p := Replace(xs, key, id, y), IndexOf(xs, key, id);
    forall i | 0 <= i < |xs| ensures key(ys[i]) == key(xs[i]) { assert rel(zs[i], ys[i]); }
    SameKeys(xs, ys, key, id);
    forall x | rel(Find(xs, key, id).value, x) ensures Pointwise(xs, Replace(ys, key, id, x), rel) {
      forall i | 0 <= i < |xs| && i != p ensures rel(xs[i], ys[i]) { assert rel(zs[i], ys[i]); }
    }
  }

  /** Delete, any drift, insertion of the old record at its old position. */
  lemma UndoWithout<T(!new)>(xs: seq<T>, id: string, ys: seq<T>, key: T -> string, rel: (T, T) -> bool)
    requires Keeps(key, rel) && Unique(xs, key) && Find(xs, key, id).Some? && Pointwise(Without(xs, key, id), ys, rel)
    ensures var p := IndexOf(xs, key, id);
            p <= |ys| && Find(ys, key, id).None? && Pointwise(xs, InsertAt(ys, p, Find(xs, key, id).value), rel)
  {
    var zs, p := Without(xs, key, id), IndexOf(xs, key, id);
    WithoutUnique(xs, key, p);
    FindWithout(xs, key, id);
    forall i | 0 <= i < |zs| ensures key(ys[i]) == key(zs[i]) { assert rel(zs[i], ys[i]); }
    SameKeys(zs, ys, key, id);
    var back := InsertAt(ys, p, xs[p]);
    forall i | 0 <= i < |xs| ensures rel(xs[i], back[i]) {
      if i < p { assert rel(zs[i], ys[i]); }
      if i > p { assert rel(zs[i - 1], ys[i - 1]); }
    }
  }

  // ---------- the shape of each first update ----------

  /** The record an update puts in place of the old one carries the same identifier, and nothing else changes. */
  predicate PutsInbound(st: State, id: string, next: State) {
    var y := Find(next.inbounds, InboundKey, id);
    InboundOf(st, id).Some? && y.Some? && next == Inbounds.Put(st, id, y.value)
  }

  predicate PutsOutbound(st: State, id: string, next: State) {
    var y := Find(next.outbounds, OutboundKey, id);
    OutboundOf(st, id).Some? && y.Some? && next == Outbounds.Put(st, id, y.value)
  }

  predicate PutsGroup(st: State, id: string, next: State) {
    var y := Find(next.groups, GroupKey, id);
    GroupOf(st, id).Some? && y.Some? && next == Groups.Put(st, id, y.value)
  }

  predicate PutsRule(st: State, id: string, next: State) {
    var y := Find(next.rules, RuleKey, id);
    RuleOf(st, id).Some? && y.Some? && next == Rules.Put(st, id, y.value)
  }

  lemma PutInboundShape(st: State, id: string, y: Inbound)
    requires InboundOf(st, id).Some? && y.id == id
    ensures PutsInbound(st, id, Inbounds.Put(st, id, y))
  {
    FindReplace(st.inbounds, InboundKey, id, y);
  }

  lemma PutOutboundShape(st: State, id: string, y: Outbound)
    requires OutboundOf(st, id).Some? && y.id == id
    ensures PutsOutbound(st, id, Outbounds.Put(st, id, y))
  {
    FindReplace(st.outbounds, OutboundKey, id, y);
  }

  lemma PutGroupShape(st: State, id: string, y: Group)
    requires GroupOf(st, id).Some? && y.id == id
    ensures PutsGroup(st, id, Groups.Put(st, id, y))
  {
    FindReplace(st.groups, GroupKey, id, y);
  }

  lemma PutRuleShape(st: State, id: string, y: Rule)
    requires RuleOf(st, id).Some? && y.id == id
    ensures PutsRule(st, id, Rules.Put(st, id, y))
  {
    FindReplace(st.rules, RuleKey, id, y);
  }

  /** Create appends, update and enable overwrite, delete filters: one collection each, inbounds with their clients. */
  ghost predicate Shape(st: State, op: Operation, next: State) {
    match op
    case CreateInbound(id, _) => exists y: Inbound :: y.id == id && next == st.(inbounds := st.inbounds + [y])
    case UpdateInbound(id, _) => PutsInbound(st, id, next)
    case EnableInbound(id, _) => PutsInbound(st, id, next)
    case DeleteInbound(id) =>
      InboundOf(st, id).Some? && next == st.(inbounds := Without(st.inbounds, InboundKey, id),
                                             clients := Filter(st.clients, Inbounds.ClientOf(id)))
    case CreateOutbound(id, _, _) => exists y: Outbound :: y.id == id && next == st.(outbounds := st.outbounds + [y])
    case UpdateOutbound(id, _, _) => PutsOutbound(st, id, next)
    case EnableOutbound(id, _) =>
      PutsOutbound(st, id, next) &&
      (var x, y := OutboundOf(st, id).value, OutboundOf(next, id).value;
       y == x.(enabled := y.enabled, updatedAt := y.updatedAt))
    case DeleteOutbound(id) => OutboundOf(st, id).Some? &&
        next == st.(outbounds := Without(st.outbounds, OutboundKey, id))
    case CreateGroup(id, _) => exists y: Group :: y.id == id && next == st.(groups := st.groups + [y])
    case UpdateGroup(id, _) => PutsGroup(st, id, next)
    case DeleteGroup(id) => GroupOf(st, id).Some? && next == st.(groups := Without(st.groups, GroupKey, id))
    case CreateRule(id, _) => exists y: Rule :: y.id == id && next == st.(rules := st.rules + [y])
    case UpdateRule(id, _) => PutsRule(st, id, next)
    case DeleteRule(id) => RuleOf(st, id).Some? && next == st.(rules := Without(st.rules, RuleKey, id))
  }

  lemma InboundShape(st: State, op: Operation, now: Time)
    requires op.CreateInbound? || op.UpdateInbound? || op.EnableInbound? || op.DeleteInbound?
    requires Forward(st, op, now).Ok?
    ensures Shape(st, op, Forward(st, op, now).value)
  {
    if op.UpdateInbound? {
      PutInboundShape(st, op.id, Inbounds.Apply(InboundOf(st, op.id).value, Inbounds.Normalize(op.inbound).value, now));
    } else if op.EnableInbound? {
      var x := InboundOf(st, op.id).value;
      PutInboundShape(st, op.id, x.(enabled := op.on, status := if op.on then "configured" else "disabled",
          updatedAt := now));
    } else if op.CreateInbound? {
      assert Inbounds.FromInput(op.id, Inbounds.Normalize(op.inbound).value, now).id == op.id;
    }
  }

  lemma OutboundShape(st: State, op: Operation, now: Time)
    requires op.CreateOutbound? || op.UpdateOutbound? || op.EnableOutbound? || op.DeleteOutbound?
    requires Forward(st, op, now).Ok?
    ensures Shape(st, op, Forward(st, op, now).value)
  {
    if op.UpdateOutbound? {
      PutOutboundShape(st, op.id, Outbounds.Apply(OutboundOf(st, op.id).value, Outbounds.Normalize(op.outbound).value,
                                                  op.passwordEnc, now));
    } else if op.EnableOutbound? {
      var y := OutboundOf(st, op.id).value.(enabled := op.on, updatedAt := now);
      PutOutboundShape(st, op.id, y);
      FindReplace(st.outbounds, OutboundKey, op.id, y);
    } else if op.CreateOutbound? {
      assert Outbounds.FromInput(op.id, Outbounds.Normalize(op.outbound).value, op.passwordEnc, now).id == op.id;
    }
  }

  lemma GroupShape(st: State, op: Operation, now: Time)
    requires op.CreateGroup? || op.UpdateGroup? || op.DeleteGroup?
    requires Forward(st, op, now).Ok?
    ensures Shape(st, op, Forward(st, op, now).value)
  {
    if op.UpdateGroup? {
      var g := GroupOf(st, op.id).value;
      PutGroupShape(st, op.id, Groups.Normalize(op.group).value.(id := g.id, createdAt := g.createdAt,
          updatedAt := now));
    } else if op.CreateGroup? {
      var y := Groups.Normalize(op.group).value.(id := op.id, enabled := true, createdAt := now, updatedAt := now);
      assert y.id == op.id;
    }
  }

  lemma RuleShape(st: State, op: Operation, now: Time)
    requires op.CreateRule? || op.UpdateRule? || op.DeleteRule?
    requires Forward(st, op, now).Ok?
    ensures Shape(st, op, Forward(st, op, now).value)
  {
    if op.UpdateRule? {
      var r := RuleOf(st, op.id).value;
      PutRuleShape(st, op.id, Rules.Normalize(op.rule).value.(id := r.id, createdAt := r.createdAt, updatedAt := now));
    } else if op.CreateRule? {
      var y := Rules.Normalize(op.rule).value.(id := op.id, enabled := true, createdAt := now, updatedAt := now);
      assert y.id == op.id;
    }
  }

  lemma ForwardShape(st: State, op: Operation, now: Time)
    requires Forward(st, op, now).Ok?
    ensures Shape(st, op, Forward(st, op, now).value)
  {
    if op.CreateInbound? || op.UpdateInbound? || op.EnableInbound? || op.DeleteInbound? {
      InboundShape(st, op, now);
    } else if op.CreateOutbound? || op.UpdateOutbound? || op.EnableOutbound? || op.DeleteOutbound? {
      OutboundShape(st, op, now);
    } else if op.CreateGroup? || op.UpdateGroup? || op.DeleteGroup? {
      GroupShape(st, op, now);
    } else {
      RuleShape(st, op, now);
    }
  }

  // ---------- the rollbacks ----------

  lemma InboundDeleteRollback(st: State, op: Operation, next: State, s: State, later: Time, ns: set<string>)
    requires op.DeleteInbound?
    requires IdsUnique(st) && Shape(st, op, next) && Drift(next, s, ns)
    ensures Backward(st, op, later, s).Ok? && Drift(st, Backward(st, op, later, s).value, ns)
  {
    UndoWithout(st.inbounds, op.id, s.inbounds, InboundKey, InboundDriftIn(ns));
  }

  lemma InboundRollback(st: State, op: Operation, next: State, s: State, later: Time, ns: set<string>)
    requires op.CreateInbound? || op.UpdateInbound? || op.EnableInbound? || op.DeleteInbound?
    requires IdsUnique(st) && Fresh(st, op) && Shape(st, op, next) && Drift(next, s, ns)
    ensures Backward(st, op, later, s).Ok? && Drift(st, Backward(st, op, later, s).value, ns)
  {
    if op.CreateInbound? {
      var y: Inbound :| y.id == op.id && next == st.(inbounds := st.inbounds + [y]);
      UndoAppend(st.inbounds, y, s.inbounds, InboundKey, InboundDriftIn(ns));
    } else if op.DeleteInbound? {
      InboundDeleteRollback(st, op, next, s, later, ns);
    } else {
      UndoReplace(st.inbounds, op.id, InboundOf(next, op.id).value, s.inbounds, InboundKey, InboundDriftIn(ns));
    }
  }

  lemma OutboundRollback(st: State, op: Operation, next: State, s: State, later: Time, ns: set<string>)
    requires op.CreateOutbound? || op.UpdateOutbound? || op.DeleteOutbound?
    requires IdsUnique(st) && Fresh(st, op) && Shape(st, op, next) && Drift(next, s, ns)
    ensures Backward(st, op, later, s).Ok? && Drift(st, Backward(st, op, later, s).value, ns)
  {
    if op.CreateOutbound? {
      var y: Outbound :| y.id == op.id && next == st.(outbounds := st.outbounds + [y]);
      UndoAppend(st.outbounds, y, s.outbounds, OutboundKey, RestampedIn(ns));
    } else if op.DeleteOutbound? {
      UndoWithout(st.outbounds, op.id, s.outbounds, OutboundKey, RestampedIn(ns));
    } else {
      UndoReplace(st.outbounds, op.id, OutboundOf(next, op.id).value, s.outbounds, OutboundKey, RestampedIn(ns));
    }
  }

  /** The flag goes back; the stamp does not. */
  lemma EnableRollback(st: State, op: Operation, next: State, s: State, later: Time, ns: set<string>)
    requires op.EnableOutbound? && OutboundNode(st, op.id) in ns
    requires Shape(st, op, next) && Drift(next, s, ns)
    ensures Backward(st, op, later, s).Ok? && Drift(st, Backward(st, op, later, s).value, ns)
  {
    var x, y := OutboundOf(st, op.id).value, OutboundOf(next, op.id).value;
    UndoReplace(st.outbounds, op.id, y, s.outbounds, OutboundKey, RestampedIn(ns));
    var z := OutboundOf(s, op.id).value;
    assert Restamped(y, z);
    assert RestampedIn(ns)(x, z.(enabled := x.enabled, updatedAt := later));
  }

  predicate Same<T(==)>(x: T, y: T) { x == y }

  lemma PointwiseSame<T(!new)>(xs: seq<T>, ys: seq<T>)
    requires Pointwise(xs, ys, Same)
    ensures xs == ys
  {
    forall i | 0 <= i < |xs| ensures xs[i] == ys[i] { assert Same(xs[i], ys[i]); }
  }

  lemma GroupRollback(st: State, op: Operation, next: State, s: State, later: Time, ns: set<string>)
    requires op.CreateGroup? || op.UpdateGroup? || op.DeleteGroup?
    requires IdsUnique(st) && Fresh(st, op) && Shape(st, op, next) && Drift(next, s, ns)
    ensures Backward(st, op, later, s).Ok? && Drift(st, Backward(st, op, later, s).value, ns)
  {
    if op.CreateGroup? {
      var y: Group :| y.id == op.id && next == st.(groups := st.groups + [y]);
      UndoAppend(st.groups, y, s.groups, GroupKey, Same);
    } else if op.DeleteGroup? {
      UndoWithout(st.groups, op.id, s.groups, GroupKey, Same);
    } else {
      UndoReplace(st.groups, op.id, GroupOf(next, op.id).value, s.groups, GroupKey, Same);
    }
    PointwiseSame(st.groups, Backward(st, op, later, s).value.groups);
  }

  lemma RuleRollback(st: State, op: Operation, next: State, s: State, later: Time, ns: set<string>)
    requires op.CreateRule? || op.UpdateRule? || op.DeleteRule?
    requires IdsUnique(st) && Fresh(st, op) && Shape(st, op, next) && Drift(next, s, ns)
    ensures Backward(st, op, later, s).Ok? && Drift(st, Backward(st, op, later, s).value, ns)
  {
    if op.CreateRule? {
      var y: Rule :| y.id == op.id && next == st.(rules := st.rules + [y]);
      UndoAppend(st.rules, y, s.rules, RuleKey, Same);
    } else if op.DeleteRule? {
      UndoWithout(st.rules, op.id, s.rules, RuleKey, Same);
    } else {
      UndoReplace(st.rules, op.id, RuleOf(next, op.id).value, s.rules, RuleKey, Same);
    }
    PointwiseSame(st.rules, Backward(st, op, later, s).value.rules);
  }

  /** The outbounds after a rollback: as they were, except that switching one back stamps that one record again. */
  function OutboundsBack(st: State, op: Operation, later: Time): seq<Outbound> {
    if !op.EnableOutbound? then st.outbounds
    else
      match OutboundOf(st, op.id)
      case None => st.outbounds
      case Some(x) => Replace(st.outbounds, OutboundKey, op.id, x.(updatedAt := later))
  }

  lemma SwitchedBack(st: State, op: Operation, next: State, s: State, later: Time)
    requires op.EnableOutbound? && Shape(st, op, next) && s.outbounds == next.outbounds
    ensures Backward(st, op, later, s).Ok?
    ensures Backward(st, op, later, s).value.outbounds == OutboundsBack(st, op, later)
  {
    var x, y := OutboundOf(st, op.id).value, OutboundOf(next, op.id).value;
    FindReplace(st.outbounds, OutboundKey, op.id, y);
    SameKeys(st.outbounds, s.outbounds, OutboundKey, op.id);
    assert OutboundOf(s, op.id) == Some(y);
  }

  lemma OutboundsUndone(st: State, op: Operation, next: State, s: State, later: Time)
    requires op.CreateOutbound? || op.UpdateOutbound? || op.DeleteOutbound?
    requires IdsUnique(st) && Fresh(st, op) && Shape(st, op, next) && s.outbounds == next.outbounds
    ensures Backward(st, op, later, s).Ok? && Backward(st, op, later, s).value.outbounds == st.outbounds
  {
    if op.CreateOutbound? {
      var y: Outbound :| y.id == op.id && next == st.(outbounds := st.outbounds + [y]);
      UndoAppend(st.outbounds, y, s.outbounds, OutboundKey, Same);
    } else if op.DeleteOutbound? {
      UndoWithout(st.outbounds, op.id, s.outbounds, OutboundKey, Same);
    } else {
      UndoReplace(st.outbounds, op.id, OutboundOf(next, op.id).value, s.outbounds, OutboundKey, Same);
    }
    PointwiseSame(st.outbounds, Backward(st, op, later, s).value.outbounds);
  }

  lemma OutboundsExact(st: State, op: Operation, next: State, s: State, later: Time)
    requires IdsUnique(st) && Fresh(st, op) && Shape(st, op, next) && s.outbounds == next.outbounds
    requires Backward(st, op, later, s).Ok?
    ensures Backward(st, op, later, s).value.outbounds == OutboundsBack(st, op, later)
  {
    if op.EnableOutbound? {
      SwitchedBack(st, op, next, s, later);
    } else if op.CreateOutbound? || op.UpdateOutbound? || op.DeleteOutbound? {
      OutboundsUndone(st, op, next, s, later);
    }
  }

  /** Main result: whatever the failed deploys wrote meanwhile, the rollback closure succeeds and brings back every
      collection in content and order. Deploys write no outbound, and then the outbounds come back to the letter, but
      for the stamp that switching one back leaves on that record. */
  lemma RollbackExact(st: State, op: Operation, now: Time, next: State, s: State, later: Time, ns: set<string>)
    requires IdsUnique(st) && Fresh(st, op) && Forward(st, op, now) == Ok(next) && Drift(next, s, ns)
    requires forall n | n in DeployNodes(st, op) :: n in ns
    ensures Backward(st, op, later, s).Ok? && Drift(st, Backward(st, op, later, s).value, ns)
    ensures s.outbounds == next.outbounds ==>
              Backward(st, op, later, s).value.outbounds == OutboundsBack(st, op, later)
  {
    ForwardShape(st, op, now);
    if op.CreateInbound? || op.UpdateInbound? || op.EnableInbound? || op.DeleteInbound? {
      InboundRollback(st, op, next, s, later, ns);
    } else if op.EnableOutbound? {
      EnableRollback(st, op, next, s, later, ns);
    } else if op.CreateOutbound? || op.UpdateOutbound? || op.DeleteOutbound? {
      OutboundRollback(st, op, next, s, later, ns);
    } else if op.CreateGroup? || op.UpdateGroup? || op.DeleteGroup? {
      GroupRollback(st, op, next, s, later, ns);
    } else {
      RuleRollback(st, op, next, s, later, ns);
    }
    if s.outbounds == next.outbounds { OutboundsExact(st, op, next, s, later); }
  }

  // ---------- the invariant does not see the drift ----------

  lemma DriftKeepsInv(a: State, b: State, ns: set<string>)
    requires Inv(a) && Drift(a, b, ns)
    ensures Inv(b)
  {
    InboundsSame(a.inbounds, b.inbounds, ns, NodeIds(a));
    OutboundsSame(a.outbounds, b.outbounds, ns, NodeIds(a));
    forall g | g in b.groups ensures GroupOk(g, NodeIds(a), b.outbounds) { assert GroupOk(g, NodeIds(a), a.outbounds); }
    forall r | r in b.rules ensures RuleOk(r, NodeIds(a), UserIds(a), OutboundIds(a), b.inbounds, b.groups) {
      assert RuleFits(a, r);
    }
  }

  lemma InboundsSame(xs: seq<Inbound>, ys: seq<Inbound>, ns: set<string>, nodes: set<string>)
    requires Pointwise(xs, ys, InboundDriftIn(ns)) && Unique(xs, InboundKey) && InboundsOk(xs, nodes)
    ensures Unique(ys, InboundKey) && InboundsOk(ys, nodes) && Ids(ys, InboundKey) == Ids(xs, InboundKey)
    ensures forall n, id :: OnNode(ys, n, id) == OnNode(xs, n, id)
  {
    var rel := InboundDriftIn(ns);
    assert forall i | 0 <= i < |xs| :: rel(xs[i], ys[i]) ==> ys[i].id == xs[i].id;
    forall n, id ensures OnNode(ys, n, id) == OnNode(xs, n, id) {
      SameKeys(xs, ys, InboundKey, id);
      var p := IndexOf(xs, InboundKey, id);
      if p < |xs| { assert rel(xs[p], ys[p]); }
    }
    forall a, b | a in ys && b in ys && a.id != b.id ensures InboundsApart(a, b) {
      var i :| 0 <= i < |ys| && ys[i] == a;
      var j :| 0 <= j < |ys| && ys[j] == b;
      assert xs[i] in xs && xs[j] in xs && rel(xs[i], a) && rel(xs[j], b);
      assert InboundsApart(xs[i], xs[j]);
    }
    forall a | a in ys ensures HexId(a.id) && a.nodeId in nodes {
      var i :| 0 <= i < |ys| && ys[i] == a;
      assert xs[i] in xs && rel(xs[i], a);
    }
  }

  lemma RestampedFacts(a: Outbound, b: Outbound, nodes: set<string>)
    requires Restamped(a, b)
    ensures b.id == a.id && b.nodeId == a.nodeId && b.enabled == a.enabled &&
            OutboundOk(b, nodes) == OutboundOk(a, nodes)
    ensures forall c, d | Restamped(c, d) :: OutboundsApart(a, c) == OutboundsApart(b, d)
  {
  }

  lemma OutboundsSame(xs: seq<Outbound>, ys: seq<Outbound>, ns: set<string>, nodes: set<string>)
    requires Pointwise(xs, ys, RestampedIn(ns)) && Unique(xs, OutboundKey) && OutboundsOk(xs, nodes)
    ensures Unique(ys, OutboundKey) && OutboundsOk(ys, nodes) && Ids(ys, OutboundKey) == Ids(xs, OutboundKey)
    ensures forall n, id :: Available(ys, n, id) == Available(xs, n, id)
  {
    forall i | 0 <= i < |xs| ensures Restamped(xs[i], ys[i]) && ys[i].id == xs[i].id {
      assert RestampedIn(ns)(xs[i], ys[i]);
      RestampedFacts(xs[i], ys[i], nodes);
    }
    forall n, id ensures Available(ys, n, id) == Available(xs, n, id) {
      SameKeys(xs, ys, OutboundKey, id);
      var p := IndexOf(xs, OutboundKey, id);
      if p < |xs| { RestampedFacts(xs[p], ys[p], nodes); }
    }
    forall a, b | a in ys && b in ys && a.id != b.id ensures OutboundsApart(a, b) {
      var i :| 0 <= i < |ys| && ys[i] == a;
      var j :| 0 <= j < |ys| && ys[j] == b;
      assert xs[i] in xs && xs[j] in xs && OutboundsApart(xs[i], xs[j]);
      RestampedFacts(xs[i], a, nodes);
    }
    forall a | a in ys ensures OutboundOk(a, nodes) {
      var i :| 0 <= i < |ys| && ys[i] == a;
      assert xs[i] in xs && OutboundOk(xs[i], nodes);
      RestampedFacts(xs[i], a, nodes);
    }
  }
}
