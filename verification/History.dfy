/** Every state the panel can reach, by any sequence of operations with any outcomes, has integrity. */
module History {
  import opened Wrappers
  import opened Persistence
  import opened Operations
  import opened Integrity
  import opened Rollback
  import opened Deployment
  import opened Transactions
  import opened AdminTransitions

  /** A deploying transaction, another store update (saved or not), or a deploy on its own. */
  datatype Event =
    | Deploying(op: Operation, env: Env)
    | Administering(change: AdminOp, saved: bool)
    | Redeploying(node: string, native: bool, deploy: DeployEnv)

  /** Fresh identifiers, and enough answers from the environment. */
  ghost predicate Legal(w: World, ev: Event) {
    match ev
    case Deploying(op, env) => Fresh(w.st, op) && Covers(w.st, op, env)
    case Administering(op, _) => Admissible(w.st, op) && Books(w.st, op)
    case Redeploying(_, _, _) => true
  }

  ghost function Next(w: World, ev: Event): World
    requires Legal(w, ev)
  {
    match ev
    case Deploying(op, env) => Transact(w, op, env).0
    case Administering(op, saved) =>
      (match Apply(w.st, op)
       case Err(_) => w
       case Ok(s) => if saved then World(s, w.rt) else w)
    case Redeploying(n, native, e) => Deploy(w, n, native, e)
  }

  /** A run from the empty store. */
  ghost predicate IsRun(trace: seq<World>, events: seq<Event>) {
    && |trace| == |events| + 1
    && trace[0].st == EMPTY
    && forall k | 0 <= k < |events| :: Legal(trace[k], events[k]) && trace[k + 1] == Next(trace[k], events[k])
  }

  lemma EmptyHasIntegrity()
    ensures Inv(EMPTY)
  {
  }

  lemma NextKeepsInv(w: World, ev: Event)
    requires Inv(w.st) && Legal(w, ev)
    ensures Inv(Next(w, ev).st)
  {
    match ev
    case Deploying(op, env) => TransactKeepsInv(w, op, env);
    case Administering(op, saved) =>
      if Apply(w.st, op).Ok? { AdminKeepsInv(w.st, op); }
    case Redeploying(n, native, e) =>
      DeployDrift(w, n, native, e);
      DriftKeepsInv(w.st, Deploy(w, n, native, e).st, {n});
  }

  /** Main result: integrity in every state of every run. */
  lemma {:induction false} IntegrityAlways(trace: seq<World>, events: seq<Event>, k: nat)
    requires IsRun(trace, events) && k < |trace|
    ensures Inv(trace[k].st)
  {
    if k == 0 {
      EmptyHasIntegrity();
    } else {
      IntegrityAlways(trace, events, k - 1);
      NextKeepsInv(trace[k - 1], events[k - 1]);
    }
  }
}
