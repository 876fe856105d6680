/** The deploying transactions as runs over store and agents: exact rollback, integrity, and agreement between what
    the store compiles to and what the agents run. */
module Transactions {
  import opened Wrappers
  import opened Lists
  import opened Text
  import opened Entities
  import opened Compiler
  import opened Operations
  import opened Integrity
  import opened Transitions
  import opened Rollback
  import opened Frames
  import opened Views
  import opened Deployment

  /** The loop over the nodes to deploy: it stops at the first failure. */
  function DeployAll(w: World, nodes: seq<string>, native: bool, envs: seq<DeployEnv>): (World, bool)
    requires |envs| >= |nodes|
    decreases nodes
  {
    if nodes == [] then (w, true)
    else
      var v := Deploy(w, nodes[0], native, envs[0]);
      if Succeeds(w.st, nodes[0], envs[0]) then DeployAll(v, nodes[1..], native, envs[1..]) else (v, false)
  }

  /** redeployInboundNodes and its two siblings: every distinct node is tried, whatever happens to the others. */
  function Redeploy(w: World, nodes: seq<string>, seen: set<string>, native: bool, envs: seq<DeployEnv>): (World, bool)
    requires |envs| >= |nodes|
    decreases nodes
  {
    if nodes == [] then (w, true)
    else if nodes[0] == "" || nodes[0] in seen then Redeploy(w, nodes[1..], seen, native, envs[1..])
    else
      var v := Deploy(w, nodes[0], native, envs[0]);
      var rest := Redeploy(v, nodes[1..], seen + {nodes[0]}, native, envs[1..]);
      (rest.0, Succeeds(w.st, nodes[0], envs[0]) && rest.1)
  }

  /** Whether each of the two updates is saved, and how each deploy goes. */
  datatype Env = Env(now: Time, later: Time, saved: bool, first: seq<DeployEnv>, undoSaved: bool,
      second: seq<DeployEnv>)

  /** `Failed(true, true)` is the error "state and runtime rolled back". */
  datatype TxnResult = Rejected(error: Error) | NotSaved | Committed | Failed(rolledBack: bool, recovered: bool)

  predicate Covers(st: State, op: Operation, env: Env) {
    |env.first| >= |DeployNodes(st, op)| && |env.second| >= |DeployNodes(st, op)|
  }

  function Recover(w: World, op: Operation, nodes: seq<string>, envs: seq<DeployEnv>): (World, bool)
    requires |envs| >= |nodes|
  {
    if IsUpdate(op) then Redeploy(w, nodes, {}, SyncsNative(op), envs) else DeployAll(w, nodes, SyncsNative(op), envs)
  }

  /** The rollback update: not applied when the closure fails or the save does. */
  function Undo(before: State, op: Operation, env: Env, w: World): (World, bool) {
    match Backward(before, op, env.later, w.st)
    case Err(_) => (w, false)
    case Ok(s) => if env.undoSaved then (World(s, w.rt), true) else (w, false)
  }

  /** What follows the first saved update: deploy, and on failure undo and deploy again. */
  function Finish(before: State, op: Operation, env: Env, start: World): (World, TxnResult)
    requires Covers(before, op, env)
  {
    var nodes := DeployNodes(before, op);
    var first := DeployAll(start, nodes, SyncsNative(op), env.first);
    if first.1 then (first.0, Committed)
    else
      var undone := Undo(before, op, env, first.0);
      var second := Recover(undone.0, op, nodes, env.second);
      (second.0, Failed(undone.1, second.1))
  }

  /** One transaction, as createInboundTransactional and its thirteen siblings run it. */
  function Transact(w: World, op: Operation, env: Env): (World, TxnResult)
    requires Covers(w.st, op, env)
  {
    match Forward(w.st, op, env.now)
    case Err(e) => (w, Rejected(e))
    case Ok(next) =>
      if !env.saved then (w, NotSaved)
      else Finish(w.st, op, env, World(next, w.rt))
  }

  // ---------- what deploys leave alone ----------

  function NodeSet(nodes: seq<string>): set<string> {
    set n | n in nodes
  }

  lemma {:induction false} DeployAllDrift(w: World, nodes: seq<string>, native: bool, envs: seq<DeployEnv>,
                                          ns: set<string>)
    requires |envs| >= |nodes| && forall n | n in nodes :: n in ns
    ensures Drift(w.st, DeployAll(w, nodes, native, envs).0.st, ns)
    decreases nodes
  {
    if nodes == [] {
      DriftReflexive(w.st, ns);
    } else {
      assert nodes[0] in nodes && forall n | n in nodes[1..] :: n in nodes;
      var v := Deploy(w, nodes[0], native, envs[0]);
      DeployDrift(w, nodes[0], native, envs[0]);
      DriftWiden(w.st, v.st, {nodes[0]}, ns);
      if Succeeds(w.st, nodes[0], envs[0]) {
        DeployAllDrift(v, nodes[1..], native, envs[1..], ns);
        DriftTransitive(w.st, v.st, DeployAll(v, nodes[1..], native, envs[1..]).0.st, ns);
      }
    }
  }

  lemma DriftReflexive(st: State, ns: set<string>)
    ensures Drift(st, st, ns)
  {
  }

  lemma {:induction false} RedeployDrift(w: World, nodes: seq<string>, seen: set<string>, native: bool,
                                         envs: seq<DeployEnv>, ns: set<string>)
    requires |envs| >= |nodes| && forall n | n in nodes :: n in ns
    ensures Drift(w.st, Redeploy(w, nodes, seen, native, envs).0.st, ns)
    decreases nodes
  {
    if nodes == [] {
      DriftReflexive(w.st, ns);
    } else {
      assert nodes[0] in nodes && forall n | n in nodes[1..] :: n in nodes;
      if nodes[0] == "" || nodes[0] in seen {
        RedeployDrift(w, nodes[1..], seen, native, envs[1..], ns);
      } else {
        var v := Deploy(w, nodes[0], native, envs[0]);
        DeployDrift(w, nodes[0], native, envs[0]);
        DriftWiden(w.st, v.st, {nodes[0]}, ns);
        RedeployDrift(v, nodes[1..], seen + {nodes[0]}, native, envs[1..], ns);
        DriftTransitive(w.st, v.st, Redeploy(v, nodes[1..], seen + {nodes[0]}, native, envs[1..]).0.st, ns);
      }
    }
  }

  lemma RecoverDrift(w: World, op: Operation, nodes: seq<string>, envs: seq<DeployEnv>, ns: set<string>)
    requires |envs| >= |nodes| && forall n | n in nodes :: n in ns
    ensures Drift(w.st, Recover(w, op, nodes, envs).0.st, ns)
  {
    if IsUpdate(op) {
      RedeployDrift(w, nodes, {}, SyncsNative(op), envs, ns);
    } else {
      DeployAllDrift(w, nodes, SyncsNative(op), envs, ns);
    }
  }

  // ---------- rollback and integrity ----------

  lemma UndoneDrift(before: State, op: Operation, env: Env, next: State, w: World, ns: set<string>)
    requires IdsUnique(before) && Fresh(before, op) && Forward(before, op, env.now) == Ok(next) && Drift(next, w.st, ns)
    requires forall n | n in DeployNodes(before, op) :: n in ns
    ensures var u := Undo(before, op, env, w);
            u.1 == env.undoSaved && (if u.1 then Drift(before, u.0.st, ns) else Drift(next, u.0.st, ns))
  {
    RollbackExact(before, op, env.now, next, w.st, env.later, ns);
  }

  lemma RecoveredDrift(from: State, w: World, op: Operation, nodes: seq<string>, envs: seq<DeployEnv>, ns: set<string>)
    requires |envs| >= |nodes| && (forall n | n in nodes :: n in ns) && Drift(from, w.st, ns)
    ensures Drift(from, Recover(w, op, nodes, envs).0.st, ns)
  {
    RecoverDrift(w, op, nodes, envs, ns);
    DriftTransitive(from, w.st, Recover(w, op, nodes, envs).0.st, ns);
  }

  lemma FinishState(before: State, op: Operation, env: Env, next: State, start: World)
    requires IdsUnique(before) && Fresh(before, op) && Covers(before, op, env)
    requires Forward(before, op, env.now) == Ok(next) && start.st == next
    ensures var (v, r) := Finish(before, op, env, start);
            var ns := NodeSet(DeployNodes(before, op));
            if r.Failed? && r.rolledBack then env.undoSaved && Drift(before, v.st, ns)
            else (r.Committed? || (r.Failed? && !r.rolledBack && !env.undoSaved)) && Drift(next, v.st, ns)
  {
    var nodes := DeployNodes(before, op);
    var ns := NodeSet(nodes);
    var first := DeployAll(start, nodes, SyncsNative(op), env.first);
    DeployAllDrift(start, nodes, SyncsNative(op), env.first, ns);
    if !first.1 {
      UndoneDrift(before, op, env, next, first.0, ns);
      var undone := Undo(before, op, env, first.0);
      RecoveredDrift(if undone.1 then before else next, undone.0, op, nodes, env.second, ns);
    }
  }

  /** A transaction either leaves the state as it was (rejected, not saved), or with the change applied (committed,
      rollback not saved), or exactly as it was up to deploy-written fields (rolled back). */
  lemma TransactState(w: World, op: Operation, env: Env)
    requires IdsUnique(w.st) && Fresh(w.st, op) && Covers(w.st, op, env)
    ensures var (v, r) := Transact(w, op, env);
            var ns := NodeSet(DeployNodes(w.st, op));
            match r
            case Rejected(e) => v == w && Forward(w.st, op, env.now) == Err(e)
            case NotSaved => v == w
            case Committed => Forward(w.st, op, env.now).Ok? && Drift(Forward(w.st, op, env.now).value, v.st, ns)
            case Failed(rolledBack, _) =>
              && Forward(w.st, op, env.now).Ok?
              && (rolledBack ==> Drift(w.st, v.st, ns))
              && (!rolledBack ==> Drift(Forward(w.st, op, env.now).value, v.st, ns))
              && (rolledBack <==> env.undoSaved)
  {
    var f := Forward(w.st, op, env.now);
    if f.Ok? && env.saved { FinishState(w.st, op, env, f.value, World(f.value, w.rt)); }
  }

  lemma {:induction false} DeployAllOutbounds(w: World, nodes: seq<string>, native: bool, envs: seq<DeployEnv>)
    requires |envs| >= |nodes|
    ensures DeployAll(w, nodes, native, envs).0.st.outbounds == w.st.outbounds
    decreases nodes
  {
    if nodes != [] && Succeeds(w.st, nodes[0], envs[0]) {
      DeployAllOutbounds(Deploy(w, nodes[0], native, envs[0]), nodes[1..], native, envs[1..]);
    }
  }

  lemma {:induction false} RedeployOutbounds(w: World, nodes: seq<string>, seen: set<string>, native: bool,
                                             envs: seq<DeployEnv>)
    requires |envs| >= |nodes|
    ensures Redeploy(w, nodes, seen, native, envs).0.st.outbounds == w.st.outbounds
    decreases nodes
  {
    if nodes != [] {
      if nodes[0] == "" || nodes[0] in seen {
        RedeployOutbounds(w, nodes[1..], seen, native, envs[1..]);
      } else {
        RedeployOutbounds(Deploy(w, nodes[0], native, envs[0]), nodes[1..], seen + {nodes[0]}, native, envs[1..]);
      }
    }
  }

  lemma UndoneOutbounds(before: State, op: Operation, env: Env, next: State, w: World, ns: set<string>)
    requires IdsUnique(before) && Fresh(before, op) && Forward(before, op, env.now) == Ok(next) && Drift(next, w.st, ns)
    requires w.st.outbounds == next.outbounds && forall n | n in DeployNodes(before, op) :: n in ns
    ensures var u := Undo(before, op, env, w);
            u.0.st.outbounds == if u.1 then OutboundsBack(before, op, env.later) else next.outbounds
  {
    RollbackExact(before, op, env.now, next, w.st, env.later, ns);
  }

  lemma RecoverOutbounds(w: World, op: Operation, nodes: seq<string>, envs: seq<DeployEnv>)
    requires |envs| >= |nodes|
    ensures Recover(w, op, nodes, envs).0.st.outbounds == w.st.outbounds
  {
    if IsUpdate(op) {
      RedeployOutbounds(w, nodes, {}, SyncsNative(op), envs);
    } else {
      DeployAllOutbounds(w, nodes, SyncsNative(op), envs);
    }
  }

  lemma FinishOutbounds(before: State, op: Operation, env: Env, next: State, start: World)
    requires IdsUnique(before) && Fresh(before, op) && Covers(before, op, env)
    requires Forward(before, op, env.now) == Ok(next) && start.st == next
    ensures var (v, r) := Finish(before, op, env, start);
            v.st.outbounds == if r.Failed? && r.rolledBack then OutboundsBack(before, op, env.later) else next.outbounds
  {
    var nodes, native := DeployNodes(before, op), SyncsNative(op);
    var first := DeployAll(start, nodes, native, env.first);
    DeployAllOutbounds(start, nodes, native, env.first);
    DeployAllDrift(start, nodes, native, env.first, NodeSet(nodes));
    if !first.1 {
      UndoneOutbounds(before, op, env, next, first.0, NodeSet(nodes));
      RecoverOutbounds(Undo(before, op, env, first.0).0, op, nodes, env.second);
    }
  }

  /** The outbounds after a transaction, to the letter. */
  lemma TransactOutbounds(w: World, op: Operation, env: Env)
    requires IdsUnique(w.st) && Fresh(w.st, op) && Covers(w.st, op, env)
    ensures var (v, r) := Transact(w, op, env);
            v.st.outbounds ==
            if r.Rejected? || r.NotSaved? then w.st.outbounds
            else if r.Failed? && r.rolledBack then OutboundsBack(w.st, op, env.later)
            else Forward(w.st, op, env.now).value.outbounds
  {
    var f := Forward(w.st, op, env.now);
    if f.Ok? && env.saved { FinishOutbounds(w.st, op, env, f.value, World(f.value, w.rt)); }
  }

  /** Integrity survives every transaction, whatever the environment does. */
  lemma TransactKeepsInv(w: World, op: Operation, env: Env)
    requires Inv(w.st) && Fresh(w.st, op) && Covers(w.st, op, env)
    ensures Inv(Transact(w, op, env).0.st)
  {
    TransactState(w, op, env);
    var (v, r) := Transact(w, op, env);
    var ns := NodeSet(DeployNodes(w.st, op));
    var f := Forward(w.st, op, env.now);
    if f.Ok? {
      ForwardKeepsInv(w.st, op, env.now);
      if r.Committed? || (r.Failed? && !r.rolledBack) {
        DriftKeepsInv(f.value, v.st, ns);
      } else if r.Failed? {
        DriftKeepsInv(w.st, v.st, ns);
      }
    }
  }

  // ---------- agreement between store and agents ----------

  ghost predicate InStep(w: World, n: string) {
    n in w.rt && Runs(w.st, n, w.rt[n])
  }

  ghost predicate AgreeExcept(w: World, pending: seq<string>) {
    forall n | n in NodeIds(w.st) && n !in pending :: InStep(w, n)
  }

  /** Every node runs exactly what the store compiles to. */
  ghost predicate Agree(w: World) {
    AgreeExcept(w, [])
  }

  ghost predicate NativeInStep(w: World, nodes: seq<string>) {
    forall n | n in nodes :: RuntimeOf(w, n).native == Native(w.st, n)
  }

  ghost predicate Distinct(nodes: seq<string>) {
    forall i, j | 0 <= i < j < |nodes| :: nodes[i] != nodes[j]
  }

  lemma DeployStep(w: World, nodes: seq<string>, native: bool, e: DeployEnv)
    requires nodes != [] && Distinct(nodes) && AgreeExcept(w, nodes)
    requires native || NativeInStep(w, nodes)
    requires Succeeds(w.st, nodes[0], e)
    ensures AgreeExcept(Deploy(w, nodes[0], native, e), nodes[1..])
    ensures native || NativeInStep(Deploy(w, nodes[0], native, e), nodes[1..])
    ensures Distinct(nodes[1..]) && NodeIds(Deploy(w, nodes[0], native, e).st) == NodeIds(w.st)
  {
    var v := Deploy(w, nodes[0], native, e);
    DeployRuns(w, nodes[0], native, e);
    forall n | n in NodeIds(v.st) && n !in nodes[1..] ensures InStep(v, n) {
      if n != nodes[0] {
        assert n !in nodes;
        DeployFrame(w, nodes[0], native, e, n);
      }
    }
    forall n | n in nodes[1..] && !native ensures RuntimeOf(v, n).native == Native(v.st, n) {
      assert n in nodes;
      NativeStable(w, nodes[0], native, e, n);
    }
    forall i, j | 0 <= i < j < |nodes[1..]| ensures nodes[1..][i] != nodes[1..][j] {
      assert nodes[i + 1] != nodes[j + 1];
    }
  }

  lemma {:induction false} DeployAllAgrees(w: World, nodes: seq<string>, native: bool, envs: seq<DeployEnv>)
    requires |envs| >= |nodes| && Distinct(nodes) && AgreeExcept(w, nodes)
    requires native || NativeInStep(w, nodes)
    requires DeployAll(w, nodes, native, envs).1
    ensures Agree(DeployAll(w, nodes, native, envs).0)
    decreases nodes
  {
    if nodes != [] {
      DeployStep(w, nodes, native, envs[0]);
      DeployAllAgrees(Deploy(w, nodes[0], native, envs[0]), nodes[1..], native, envs[1..]);
    }
  }

  lemma {:induction false} RedeployAgrees(w: World, nodes: seq<string>, seen: set<string>, native: bool,
                                          envs: seq<DeployEnv>)
    requires |envs| >= |nodes| && Distinct(nodes) && AgreeExcept(w, nodes)
    requires forall n | n in nodes :: n != "" && n !in seen
    requires native || NativeInStep(w, nodes)
    requires Redeploy(w, nodes, seen, native, envs).1
    ensures Agree(Redeploy(w, nodes, seen, native, envs).0)
    decreases nodes
  {
    if nodes != [] {
      assert nodes[0] in nodes;
      DeployStep(w, nodes, native, envs[0]);
      forall n | n in nodes[1..] ensures n != "" && n !in seen + {nodes[0]} {
        var i :| 0 <= i < |nodes[1..]| && nodes[1..][i] == n;
        assert nodes[i + 1] == n && n in nodes && nodes[0] != nodes[i + 1];
      }
      RedeployAgrees(Deploy(w, nodes[0], native, envs[0]), nodes[1..], seen + {nodes[0]}, native, envs[1..]);
    }
  }

  lemma DeployNodesDistinct(st: State, op: Operation)
    ensures Distinct(DeployNodes(st, op))
  {
  }

  /** The nodes to deploy exist and are distinct. */
  lemma DeployNodesExist(st: State, op: Operation, now: Time)
    requires Inv(st) && Fresh(st, op) && Forward(st, op, now).Ok?
    ensures Distinct(DeployNodes(st, op))
    ensures forall n | n in DeployNodes(st, op) :: n in NodeIds(st) && n != ""
  {
    DeployNodesDistinct(st, op);
    if op.CreateInbound? || op.UpdateInbound? || op.EnableInbound? || op.DeleteInbound? {
      InboundNodesExist(st, op, now);
    } else if op.CreateOutbound? || op.UpdateOutbound? || op.EnableOutbound? || op.DeleteOutbound? {
      OutboundNodesExist(st, op, now);
    } else if op.CreateGroup? || op.UpdateGroup? || op.DeleteGroup? {
      GroupNodesExist(st, op, now);
    } else {
      RuleNodesExist(st, op, now);
    }
    forall n | n in DeployNodes(st, op) ensures n != "" { NodeIdsNonEmpty(st, n); }
  }

  lemma InboundNodesExist(st: State, op: Operation, now: Time)
    requires op.CreateInbound? || op.UpdateInbound? || op.EnableInbound? || op.DeleteInbound?
    requires Inv(st) && Forward(st, op, now).Ok?
    ensures forall n | n in DeployNodes(st, op) :: n in NodeIds(st)
  {
    if op.CreateInbound? || op.UpdateInbound? { NodeForWorkExists(st, op.inbound.nodeId); }
  }

  lemma OutboundNodesExist(st: State, op: Operation, now: Time)
    requires op.CreateOutbound? || op.UpdateOutbound? || op.EnableOutbound? || op.DeleteOutbound?
    requires Inv(st) && Forward(st, op, now).Ok?
    ensures forall n | n in DeployNodes(st, op) :: n in NodeIds(st)
  {
    if op.CreateOutbound? || op.UpdateOutbound? { NodeForWorkExists(st, Trim(op.outbound.nodeId)); }
    if !op.CreateOutbound? { assert OutboundOk(OutboundOf(st, op.id).value, NodeIds(st)); }
  }

  lemma GroupNodesExist(st: State, op: Operation, now: Time)
    requires op.CreateGroup? || op.UpdateGroup? || op.DeleteGroup?
    requires Inv(st) && Forward(st, op, now).Ok?
    ensures forall n | n in DeployNodes(st, op) :: n in NodeIds(st)
  {
    if op.CreateGroup? || op.UpdateGroup? { NodeForWorkExists(st, Trim(op.group.nodeId)); }
    if !op.CreateGroup? { assert GroupOk(GroupOf(st, op.id).value, NodeIds(st), st.outbounds); }
  }

  lemma RuleNodesExist(st: State, op: Operation, now: Time)
    requires op.CreateRule? || op.UpdateRule? || op.DeleteRule?
    requires Inv(st) && Forward(st, op, now).Ok?
    ensures forall n | n in DeployNodes(st, op) :: n in NodeIds(st)
  {
    if op.CreateRule? || op.UpdateRule? { IdsFind(st.nodes, NodeKey, Trim(op.rule.nodeId)); }
    if !op.CreateRule? { assert RuleFits(st, RuleOf(st, op.id).value); }
  }

  lemma NodesKept(st: State, op: Operation, now: Time)
    requires Forward(st, op, now).Ok?
    ensures Forward(st, op, now).value.nodes == st.nodes
  {
    ForwardShape(st, op, now);
  }

  lemma NativeKept(st: State, op: Operation, now: Time, n: string)
    requires Forward(st, op, now).Ok? && !SyncsNative(op)
    ensures Native(Forward(st, op, now).value, n) == Native(st, n)
  {
    ForwardShape(st, op, now);
  }

  lemma StartCommit(w: World, op: Operation, now: Time)
    requires Inv(w.st) && Fresh(w.st, op) && Agree(w) && Forward(w.st, op, now).Ok?
    requires ElsewhereUntouched(w.st, op)
    ensures var v := World(Forward(w.st, op, now).value, w.rt);
            AgreeExcept(v, DeployNodes(w.st, op)) && (SyncsNative(op) || NativeInStep(v, DeployNodes(w.st, op)))
  {
    var next := Forward(w.st, op, now).value;
    NodesKept(w.st, op, now);
    DeployNodesExist(w.st, op, now);
    forall n | n in NodeIds(next) && n !in DeployNodes(w.st, op) ensures InStep(World(next, w.rt), n) {
      assert InStep(w, n);
      OtherNodesKeep(w.st, op, now, next, n);
    }
    forall n | n in DeployNodes(w.st, op) && !SyncsNative(op)
      ensures RuntimeOf(World(next, w.rt), n).native == Native(next, n)
    {
      assert InStep(w, n);
      NativeKept(w.st, op, now, n);
    }
  }

  lemma {:induction false} DeployAllFrame(w: World, nodes: seq<string>, native: bool, envs: seq<DeployEnv>, m: string)
    requires |envs| >= |nodes|
    ensures var v := DeployAll(w, nodes, native, envs).0;
            && (m !in nodes ==> (m in v.rt <==> m in w.rt) && (m in w.rt ==> v.rt[m] == w.rt[m]))
            && (!native ==> RuntimeOf(v, m).native == RuntimeOf(w, m).native)
    decreases nodes
  {
    if nodes != [] {
      var v := Deploy(w, nodes[0], native, envs[0]);
      NativeStable(w, nodes[0], native, envs[0], m);
      if m != nodes[0] { DeployFrame(w, nodes[0], native, envs[0], m); }
      if Succeeds(w.st, nodes[0], envs[0]) {
        assert m !in nodes ==> m !in nodes[1..];
        DeployAllFrame(v, nodes[1..], native, envs[1..], m);
      }
    }
  }

  lemma {:induction false} NativeItemsRestamped(xs: seq<Outbound>, ys: seq<Outbound>, n: string, protocol: string)
    requires Pointwise(xs, ys, Restamped)
    ensures NativeItems(Filter(xs, OutboundOn(n)), protocol) == NativeItems(Filter(ys, OutboundOn(n)), protocol)
  {
    if xs != [] {
      assert Restamped(xs[0], ys[0]);
      var xt, yt := xs[1..], ys[1..];
      forall i | 0 <= i < |xt| ensures Restamped(xt[i], yt[i]) { assert Restamped(xs[i + 1], ys[i + 1]); }
      NativeItemsRestamped(xt, yt, n, protocol);
      if xs[0].nodeId == n {
        assert ([xs[0]] + Filter(xt, OutboundOn(n)))[1..] == Filter(xt, OutboundOn(n));
        assert ([ys[0]] + Filter(yt, OutboundOn(n)))[1..] == Filter(yt, OutboundOn(n));
      } else {
        assert Filter(xs, OutboundOn(n)) == Filter(xt, OutboundOn(n)) &&
               Filter(ys, OutboundOn(n)) == Filter(yt, OutboundOn(n));
      }
    }
  }

  lemma DriftNative(a: State, b: State, ns: set<string>, n: string)
    requires Drift(a, b, ns)
    ensures Native(a, n) == Native(b, n)
  {
    forall i | 0 <= i < |a.outbounds| ensures Restamped(a.outbounds[i], b.outbounds[i]) {
      assert RestampedIn(ns)(a.outbounds[i], b.outbounds[i]);
    }
    NativeItemsRestamped(a.outbounds, b.outbounds, n, "wireguard");
    NativeItemsRestamped(a.outbounds, b.outbounds, n, "tor");
    NativeItemsRestamped(a.outbounds, b.outbounds, n, "openvpn");
  }

  /** After the rollback every node that was not deployed is in step again without being touched. */
  lemma StartRecovery(w: World, op: Operation, env: Env, next: State)
    requires Inv(w.st) && Fresh(w.st, op) && Agree(w) && Covers(w.st, op, env)
    requires Forward(w.st, op, env.now) == Ok(next) && env.undoSaved
    ensures var nodes := DeployNodes(w.st, op);
            var first := DeployAll(World(next, w.rt), nodes, SyncsNative(op), env.first);
            var u := Undo(w.st, op, env, first.0);
            u.1 && AgreeExcept(u.0, nodes) && (SyncsNative(op) || NativeInStep(u.0, nodes))
  {
    var nodes := DeployNodes(w.st, op);
    var ns := NodeSet(nodes);
    var start := World(next, w.rt);
    var first := DeployAll(start, nodes, SyncsNative(op), env.first);
    DeployAllDrift(start, nodes, SyncsNative(op), env.first, ns);
    RollbackExact(w.st, op, env.now, next, first.0.st, env.later, ns);
    var u := Undo(w.st, op, env, first.0);
    DeployNodesExist(w.st, op, env.now);
    forall n | n in NodeIds(u.0.st) && n !in nodes ensures InStep(u.0, n) {
      assert InStep(w, n);
      DeployAllFrame(start, nodes, SyncsNative(op), env.first, n);
      DriftView(w.st, u.0.st, ns, n);
      ViewDeterminesRuntime(w.st, u.0.st, n);
    }
    forall n | n in nodes && !SyncsNative(op) ensures RuntimeOf(u.0, n).native == Native(u.0.st, n) {
      assert InStep(w, n);
      DeployAllFrame(start, nodes, SyncsNative(op), env.first, n);
      DriftNative(w.st, u.0.st, ns, n);
    }
  }

  /** Main result: from a world in step, a transaction that commits or reports "state and runtime rolled back" ends in
      a world in step. Committing an outbound change needs that no enabled rule of another node names the outbound, or
      that the tag it compiles to stays; see AgreementExact. */
  lemma TransactAgrees(w: World, op: Operation, env: Env)
    requires Inv(w.st) && Fresh(w.st, op) && Agree(w) && Covers(w.st, op, env)
    requires Transact(w, op, env).1.Committed? ==> ElsewhereUntouched(w.st, op)
    requires Transact(w, op, env).1 != Failed(true, false) && Transact(w, op, env).1 != Failed(false, true)
    requires Transact(w, op, env).1 != Failed(false, false)
    ensures Agree(Transact(w, op, env).0)
  {
    var f := Forward(w.st, op, env.now);
    if f.Ok? && env.saved {
      var nodes := DeployNodes(w.st, op);
      var start := World(f.value, w.rt);
      var first := DeployAll(start, nodes, SyncsNative(op), env.first);
      DeployNodesExist(w.st, op, env.now);
      if first.1 {
        StartCommit(w, op, env.now);
        DeployAllAgrees(start, nodes, SyncsNative(op), env.first);
      } else {
        StartRecovery(w, op, env, f.value);
        var u := Undo(w.st, op, env, first.0).0;
        if IsUpdate(op) {
          RedeployAgrees(u, nodes, {}, SyncsNative(op), env.second);
        } else {
          DeployAllAgrees(u, nodes, SyncsNative(op), env.second);
        }
      }
    }
  }
}
