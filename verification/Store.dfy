/** The store and the transactions that run over it (internal/panel/store.go and the transactional files). */
module Store {
  import opened Wrappers
  import opened Entities
  import opened Persistence
  import opened Compiler
  import opened Operations
  import opened Deployment
  import opened Transactions

  const IO_OK := SaveIo(true, true, true)

  lemma NothingToFill(x: Inbound, n: string, e: DeployEnv)
    requires !(NeedsKey(x, n) && x.id in e.realityKeys) && !(NeedsPassword(x, n) && x.id in e.passwords)
    ensures Fill(x, n, e) == x
  {
  }

  /** The first i inbounds have been filled, the others are as they were. */
  ghost predicate FilledTo(xs: seq<Inbound>, ys: seq<Inbound>, i: nat, n: string, e: DeployEnv) {
    |ys| == |xs| && forall m | 0 <= m < |xs| :: ys[m] == if m < i then Fill(xs[m], n, e) else xs[m]
  }

  lemma FilledNext(xs: seq<Inbound>, ys: seq<Inbound>, i: nat, n: string, e: DeployEnv)
    requires i < |xs| && FilledTo(xs, ys, i, n, e)
    ensures FilledTo(xs, ys[i := Fill(ys[i], n, e)], i + 1, n, e)
  {
  }

  lemma FilledAll(xs: seq<Inbound>, ys: seq<Inbound>, n: string, e: DeployEnv)
    requires FilledTo(xs, ys, |xs|, n, e)
    ensures ys == FillAll(xs, n, e)
  {
  }

  class Store {
    const path: string
    var files: map<string, File>
    var st: State
    /** What the agents run; the store cannot see it. */
    ghost var rt: map<string, NodeRuntime>

    /** Reopening the file would give the live state. */
    ghost predicate Valid()
      reads this
    {
      Open(files, path) == Some(st)
    }

    ghost function Now(): World
      reads this
    {
      World(st, rt)
    }

    constructor (path: string, files: map<string, File>, st: State, ghost rt: map<string, NodeRuntime>)
      requires Open(files, path) == Some(st)
      ensures Valid() && this.st == st && this.rt == rt
    {
      this.path, this.files, this.st, this.rt := path, files, st, rt;
    }

    /** saveStateLocked: write a sibling file, then rename it over the old one. */
    method Save(next: State, io: SaveIo) returns (ok: bool)
      modifies this`files
      ensures ok == io.Ok()
      ensures ok ==> Open(files, path) == Some(next)
      ensures !ok ==> Open(files, path) == old(Open(files, path))
    {
      if !io.mkdir {
        return false;
      }
      var d := StateToDisk(next);
      var tmp := path + ".tmp";
      assert tmp != path by { assert |tmp| == |path| + 4; }
      if !io.write {
        files := files[tmp := Garbage];
        return false;
      }
      files := files[tmp := Doc(ThroughJson(d))];
      if !io.rename {
        return false;
      }
      files := (files - {tmp})[path := files[tmp]];
      DiskRoundTrip(next);
      ok := true;
    }

    /** Store.Update: all or nothing, and durable. */
    method Update(fn: State -> Outcome<State>, io: SaveIo) returns (ok: bool)
      requires Valid()
      modifies this`files, this`st
      ensures Valid()
      ensures ok == (fn(old(st)).Ok? && io.Ok())
      ensures st == if ok then fn(old(st)).value else old(st)
    {
      var next := fn(st);
      if next.Err? {
        return false;
      }
      ok := Save(next.value, io);
      if ok {
        st := next.value;
      }
    }

    /** One saved update when the inbound lacks a secret that was delivered. */
    method FillAt(i: nat, n: string, e: DeployEnv)
      requires Valid() && i < |st.inbounds|
      modifies this`files, this`st
      ensures Valid()
      ensures st == old(st).(inbounds := old(st).inbounds[i := Fill(old(st).inbounds[i], n, e)])
    {
      var x := st.inbounds[i];
      if (NeedsKey(x, n) && x.id in e.realityKeys) || (NeedsPassword(x, n) && x.id in e.passwords) {
        var inbounds := st.inbounds[i := Fill(x, n, e)];
        var _ := Update((s: State) => Ok(s.(inbounds := inbounds)), IO_OK);
      } else {
        NothingToFill(x, n, e);
      }
    }

    /** ensureRealityKeys and ensureShadowsocksServerPasswords. */
    method FillSecrets(n: string, e: DeployEnv)
      requires Valid()
      modifies this`files, this`st
      ensures Valid()
      ensures st == old(st).(inbounds := FillAll(old(st).inbounds, n, e))
    {
      ghost var was := st;
      ghost var xs := st.inbounds;
      var k := |st.inbounds|;
      for i := 0 to k
        invariant Valid() && |xs| == |was.inbounds| == k && st == was.(inbounds := xs)
        invariant FilledTo(was.inbounds, xs, i, n, e)
      {
        FilledNext(was.inbounds, xs, i, n, e);
        FillAt(i, n, e);
        xs := xs[i := Fill(xs[i], n, e)];
      }
      FilledAll(was.inbounds, xs, n, e);
    }

    /** setNodeInboundStatus: the loop inside one update whose failure is ignored. */
    method StampStatus(n: string, status: string, io: SaveIo)
      requires Valid()
      modifies this`files, this`st
      ensures Valid()
      ensures st == if io.Ok() then old(st).(inbounds := StampAll(old(st).inbounds, n, status)) else old(st)
    {
      var xs := st.inbounds;
      for i := 0 to |xs|
        invariant |xs| == |st.inbounds|
        invariant forall j | 0 <= j < i :: xs[j] == Stamp(st.inbounds[j], n, status)
        invariant forall j | i <= j < |xs| :: xs[j] == st.inbounds[j]
      {
        if xs[i].nodeId == n {
          xs := xs[i := xs[i].(status := status)];
        }
      }
      assert xs == StampAll(st.inbounds, n, status);
      var _ := Update((s: State) => Ok(s.(inbounds := xs)), io);
    }

    /** deployXrayNode, preceded by the native syncs when `native` is set. */
    method DeployNode(n: string, native: bool, e: DeployEnv, io: SaveIo) returns (ok: bool)
      requires Valid() && !io.Ok()
      modifies this
      ensures Valid() && Now() == Deploy(old(Now()), n, native, e) && ok == Succeeds(old(st), n, e)
    {
      FillSecrets(n, e);
      ok := e.applied && Complete(n) && Xray(st, n).Some?;
      ghost var before := old(Now());
      if ok {
        rt := rt[n := NodeRuntime(if native then Native(st, n) else RuntimeOf(before, n).native, Xray(st, n).value)];
        StampStatus(n, "online", if e.statusSaved then IO_OK else io);
      } else {
        rt := rt[n := NodeRuntime(if native then e.native else RuntimeOf(before, n).native, e.xray)];
        StampStatus(n, "degraded", if e.statusSaved then IO_OK else io);
      }
    }

    predicate Complete(n: string)
      reads this
    {
      Filled(st.inbounds, n)
    }

    /** The loop over the deploy order: stops at the first failure. */
    method DeployInOrder(nodes: seq<string>, native: bool, envs: seq<DeployEnv>, io: SaveIo) returns (ok: bool)
      requires Valid() && |envs| >= |nodes| && !io.Ok()
      modifies this
      ensures Valid() && (Now(), ok) == DeployAll(old(Now()), nodes, native, envs)
    {
      for i := 0 to |nodes|
        invariant Valid()
        invariant DeployAll(Now(), nodes[i..], native, envs[i..]) == DeployAll(old(Now()), nodes, native, envs)
      {
        assert nodes[i..][1..] == nodes[i + 1..] && envs[i..][1..] == envs[i + 1..];
        var done := DeployNode(nodes[i], native, envs[i], io);
        if !done {
          return false;
        }
      }
      ok := true;
    }

    /** redeployOutboundNodes: `seen` and the error list. */
    method RedeployNodes(nodes: seq<string>, native: bool, envs: seq<DeployEnv>, io: SaveIo) returns (ok: bool)
      requires Valid() && |envs| >= |nodes| && !io.Ok()
      modifies this
      ensures Valid() && (Now(), ok) == Redeploy(old(Now()), nodes, {}, native, envs)
    {
      var seen: set<string> := {};
      var errs := 0;
      for i := 0 to |nodes|
        invariant Valid() && errs >= 0
        invariant var rest, all := Redeploy(Now(), nodes[i..], seen, native, envs[i..]),
                  Redeploy(old(Now()), nodes, {}, native, envs);
                  rest.0 == all.0 && all.1 == (errs == 0 && rest.1)
      {
        assert nodes[i..][1..] == nodes[i + 1..] && envs[i..][1..] == envs[i + 1..];
        if nodes[i] == "" || nodes[i] in seen {
          continue;
        }
        seen := seen + {nodes[i]};
        var done := DeployNode(nodes[i], native, envs[i], io);
        if !done {
          errs := errs + 1;
        }
      }
      ok := errs == 0;
    }

    /** The rollback update. */
    method UndoUpdate(before: State, op: Operation, env: Env, io: SaveIo) returns (undone: bool)
      requires Valid() && !io.Ok()
      modifies this`files, this`st
      ensures Valid()
      ensures (Now(), undone) == Undo(before, op, env, old(Now()))
    {
      undone := Update((s: State) => Backward(before, op, env.later, s), if env.undoSaved then IO_OK else io);
    }

    /** Deploying again after the rollback. */
    method RecoverNodes(op: Operation, nodes: seq<string>, envs: seq<DeployEnv>, io: SaveIo) returns (ok: bool)
      requires Valid() && |envs| >= |nodes| && !io.Ok()
      modifies this
      ensures Valid()
      ensures (Now(), ok) == Recover(old(Now()), op, nodes, envs)
    {
      if IsUpdate(op) {
        ok := RedeployNodes(nodes, SyncsNative(op), envs, io);
      } else {
        ok := DeployInOrder(nodes, SyncsNative(op), envs, io);
      }
    }

    /** The part of a transaction after its first update; `before` is the state it started from. */
    method DeployOrUndo(before: State, op: Operation, env: Env, io: SaveIo) returns (r: TxnResult)
      requires Valid() && Covers(before, op, env) && !io.Ok()
      modifies this
      ensures Valid()
      ensures (Now(), r) == Finish(before, op, env, old(Now()))
    {
      var nodes := DeployNodes(before, op);
      var deployed := DeployInOrder(nodes, SyncsNative(op), env.first, io);
      if deployed {
        return Committed;
      }
      var undone := UndoUpdate(before, op, env, io);
      var recovered := RecoverNodes(op, nodes, env.second, io);
      r := Failed(undone, recovered);
    }

    /** The common skeleton of the fourteen transactions. `io` says how a save fails when the environment lets it
        fail. */
    method Run(op: Operation, env: Env, io: SaveIo) returns (r: TxnResult)
      requires Valid() && Covers(st, op, env) && !io.Ok()
      modifies this
      ensures Valid()
      ensures (Now(), r) == Transact(old(Now()), op, env)
    {
      var before := st;
      var next := Forward(before, op, env.now);
      if next.Err? {
        return Rejected(next.error);
      }
      var saved := Update((s: State) => Forward(s, op, env.now), if env.saved then IO_OK else io);
      if !saved {
        return NotSaved;
      }
      r := DeployOrUndo(before, op, env, io);
    }
  }
}
