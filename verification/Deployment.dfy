/** Deploying one node: deployXrayNode and deployOutboundNode, with what they write back into the store. */
module Deployment {
  import opened Wrappers
  import opened Lists
  import opened Entities
  import opened Compiler
  import Groups
  import HealthPorts
  import opened Rollback
  import opened Frames
  import opened Views

  /** The store and what the agents run. */
  datatype World = World(st: State, rt: map<string, NodeRuntime>)

  /** What the environment does during one deploy: keys the agent or the random source delivered and the store
      accepted, whether everything up to the final apply succeeded, whether the status update was saved, and what a
      failed deploy leaves on the agent. */
  datatype DeployEnv = DeployEnv(realityKeys: map<string, string>, passwords: map<string, string>, applied: bool,
                                 statusSaved: bool, native: seq<OutboundItem>, xray: XrayConfig)

  predicate NeedsKey(x: Inbound, n: string) {
    x.nodeId == n && x.enabled && x.tlsMode == "reality" && x.realityKey == ""
  }

  predicate NeedsPassword(x: Inbound, n: string) {
    x.nodeId == n && x.enabled && x.protocol == "shadowsocks" && x.ssPassword == ""
  }

  /** ensureRealityKeys, then ensureShadowsocksServerPasswords, on one inbound. */
  function Fill(x: Inbound, n: string, e: DeployEnv): Inbound {
    x.(realityKey := if NeedsKey(x, n) && x.id in e.realityKeys then e.realityKeys[x.id] else x.realityKey,
       ssPassword := if NeedsPassword(x, n) && x.id in e.passwords then e.passwords[x.id] else x.ssPassword)
  }

  function FillAll(xs: seq<Inbound>, n: string, e: DeployEnv): (r: seq<Inbound>)
    ensures |r| == |xs| && forall i | 0 <= i < |xs| :: r[i] == Fill(xs[i], n, e)
  {
    if xs == [] then [] else [Fill(xs[0], n, e)] + FillAll(xs[1..], n, e)
  }

  predicate Filled(xs: seq<Inbound>, n: string) {
    forall x | x in xs :: !NeedsKey(x, n) && !NeedsPassword(x, n)
  }

  function Stamp(x: Inbound, n: string, status: string): Inbound {
    if x.nodeId == n then x.(status := status) else x
  }

  /** setNodeInboundStatus */
  function StampAll(xs: seq<Inbound>, n: string, status: string): (r: seq<Inbound>)
    ensures |r| == |xs| && forall i | 0 <= i < |xs| :: r[i] == Stamp(xs[i], n, status)
  {
    if xs == [] then [] else [Stamp(xs[0], n, status)] + StampAll(xs[1..], n, status)
  }

  const NOTHING := NodeRuntime([], XrayConfig([], [], [], [], []))

  function RuntimeOf(w: World, n: string): NodeRuntime {
    if n in w.rt then w.rt[n] else NOTHING
  }

  /** Did the deploy reach its end? */
  predicate Succeeds(st: State, n: string, e: DeployEnv) {
    var mid := st.(inbounds := FillAll(st.inbounds, n, e));
    e.applied && Filled(mid.inbounds, n) && Xray(mid, n).Some?
  }

  /** One deploy. With `native` set it is deployOutboundNode, which first syncs the native outbounds. A failed deploy
      leaves the parts it was to write in an arbitrary state; deployXrayNode never touches the native part. */
  function Deploy(w: World, n: string, native: bool, e: DeployEnv): World {
    var mid := w.st.(inbounds := FillAll(w.st.inbounds, n, e));
    var ok := Succeeds(w.st, n, e);
    var rt := if ok then NodeRuntime(if native then Native(mid, n) else RuntimeOf(w, n).native, Xray(mid, n).value)
              else NodeRuntime(if native then e.native else RuntimeOf(w, n).native, e.xray);
    var end := if e.statusSaved then mid.(inbounds := StampAll(mid.inbounds, n, if ok then "online" else "degraded"))
               else mid;
    World(end, w.rt[n := rt])
  }

  // ---------- what a deploy does to the store ----------

  lemma DeployDrift(w: World, n: string, native: bool, e: DeployEnv)
    ensures Drift(w.st, Deploy(w, n, native, e).st, {n})
  {
    var xs, ys := w.st.inbounds, Deploy(w, n, native, e).st.inbounds;
    forall i | 0 <= i < |xs| ensures InboundDriftIn({n})(xs[i], ys[i]) {
      var f := Fill(xs[i], n, e);
    }
  }

  /** What a deploy does to each stored inbound: a new status on its node, unless that is lost; missing keys and
      passwords of enabled inbounds that need them, all of which are there when it succeeds; and nothing else. */
  lemma DeployedInbound(w: World, n: string, native: bool, e: DeployEnv, i: nat)
    requires i < |w.st.inbounds|
    ensures |Deploy(w, n, native, e).st.inbounds| == |w.st.inbounds|
    ensures var x, y := w.st.inbounds[i], Deploy(w, n, native, e).st.inbounds[i];
            var key := x.nodeId == n && x.enabled && x.tlsMode == "reality";
            var password := x.nodeId == n && x.enabled && x.protocol == "shadowsocks";
            && y == x.(status := y.status, realityKey := y.realityKey, ssPassword := y.ssPassword)
            && y.status == (if x.nodeId != n || !e.statusSaved then x.status
                            else if Succeeds(w.st, n, e) then "online" else "degraded")
            && (!key || x.realityKey != "" ==> y.realityKey == x.realityKey)
            && (!password || x.ssPassword != "" ==> y.ssPassword == x.ssPassword)
            && (Succeeds(w.st, n, e) ==> (key ==> y.realityKey != "") && (password ==> y.ssPassword != ""))
  {
    var mid := FillAll(w.st.inbounds, n, e);
    assert mid[i] in mid;
  }

  predicate SameButStatus(a: Inbound, b: Inbound) {
    b == a.(status := b.status)
  }

  /** The compiler does not look at inbound statuses. */
  lemma {:induction false} StatusInvisible(a: State, b: State, xs: seq<Inbound>, ys: seq<Inbound>, n: string)
    requires a.users == b.users && a.clients == b.clients && Pointwise(xs, ys, SameButStatus)
    ensures InboundItems(a, Filter(xs, InboundOn(n))) == InboundItems(b, Filter(ys, InboundOn(n)))
    ensures Filter(ys, InboundOn(n)) == [] || Filter(xs, InboundOn(n)) != []
  {
    if xs != [] {
      assert SameButStatus(xs[0], ys[0]);
      var xt, yt := xs[1..], ys[1..];
      forall i | 0 <= i < |xt| ensures SameButStatus(xt[i], yt[i]) { assert SameButStatus(xs[i + 1], ys[i + 1]); }
      StatusInvisible(a, b, xt, yt, n);
      ClientItemsSame(a, b, a.clients, xs[0].id);
      if xs[0].nodeId == n {
        assert ([xs[0]] + Filter(xt, InboundOn(n)))[1..] == Filter(xt, InboundOn(n));
        assert ([ys[0]] + Filter(yt, InboundOn(n)))[1..] == Filter(yt, InboundOn(n));
      } else {
        assert Filter(xs, InboundOn(n)) == Filter(xt, InboundOn(n)) &&
               Filter(ys, InboundOn(n)) == Filter(yt, InboundOn(n));
      }
    }
  }

  lemma StatusPortsSame(xs: seq<Inbound>, ys: seq<Inbound>, n: string)
    requires Pointwise(xs, ys, SameButStatus)
    ensures HealthPorts.UsedPorts(xs, n) == HealthPorts.UsedPorts(ys, n)
  {
    var a, b := HealthPorts.UsedPorts(xs, n), HealthPorts.UsedPorts(ys, n);
    forall p | p in a ensures p in b {
      var x :| x in xs && x.nodeId == n && x.enabled && x.port == p;
      var i :| 0 <= i < |xs| && xs[i] == x;
      assert SameButStatus(xs[i], ys[i]) && ys[i] in ys;
    }
    forall p | p in b ensures p in a {
      var y :| y in ys && y.nodeId == n && y.enabled && y.port == p;
      var i :| 0 <= i < |ys| && ys[i] == y;
      assert SameButStatus(xs[i], ys[i]) && xs[i] in xs;
    }
  }

  lemma StatusOutbounds(a: State, b: State, n: string)
    requires b == a.(inbounds := b.inbounds)
    ensures AllItems(a, n) == AllItems(b, n) && Native(a, n) == Native(b, n)
  {
    forall id ensures LocalOutbound(a, n, id) == LocalOutbound(b, n, id) {}
    AliasesAgree(a, b, n, Filter(a.groups, GroupOn(n)), ByTag(BaseItems(a, n)));
  }

  lemma StatusRouting(a: State, b: State, n: string)
    requires b == a.(inbounds := b.inbounds)
    ensures RoutingRules(a, n) == RoutingRules(b, n)
  {
    forall r | r in a.rules && r.nodeId == n && r.enabled ensures TargetOf(a, n, r) == TargetOf(b, n, r) {}
    RoutingAgrees(a, b, n);
  }

  lemma StatusXray(a: State, b: State, n: string)
    requires b == a.(inbounds := b.inbounds) && Pointwise(a.inbounds, b.inbounds, SameButStatus)
    ensures Xray(a, n) == Xray(b, n) && Native(a, n) == Native(b, n)
  {
    StatusInvisible(a, b, a.inbounds, b.inbounds, n);
    StatusPortsSame(a.inbounds, b.inbounds, n);
    StatusOutbounds(a, b, n);
    StatusBalancers(a, b, Filter(a.groups, GroupOn(n)));
    StatusRouting(a, b, n);
  }

  lemma {:induction false} StatusBalancers(a: State, b: State, gs: seq<Group>)
    requires b == a.(inbounds := b.inbounds)
    ensures Balancers(a, gs) == Balancers(b, gs)
  {
    if gs != [] {
      StatusValidate(a, b, gs[0]);
      StatusBalancers(a, b, gs[1..]);
    }
  }

  lemma StatusValidate(a: State, b: State, g: Group)
    requires b == a.(inbounds := b.inbounds)
    ensures Groups.Validate(a, g).None? == Groups.Validate(b, g).None?
    ensures BalancerFor(a, g) == BalancerFor(b, g)
  {
    forall id ensures LocalOutbound(a, g.nodeId, id) == LocalOutbound(b, g.nodeId, id) {}
    MembersAgree(a, b, g);
    FallbackAgrees(a, b, g);
  }

  lemma StampedOnly(xs: seq<Inbound>, n: string, status: string)
    ensures Pointwise(xs, StampAll(xs, n, status), SameButStatus) && Pointwise(xs, xs, SameButStatus)
  {
  }

  /** A successful deploy leaves the node running what the store compiles to, provided its native part is synced now
      or was in step before. */
  lemma DeployRuns(w: World, n: string, native: bool, e: DeployEnv)
    requires Succeeds(w.st, n, e)
    requires native || RuntimeOf(w, n).native == Native(w.st, n)
    ensures var v := Deploy(w, n, native, e); n in v.rt && Runs(v.st, n, v.rt[n])
  {
    var v := Deploy(w, n, native, e);
    var mid := w.st.(inbounds := FillAll(w.st.inbounds, n, e));
    StampedOnly(mid.inbounds, n, if Succeeds(w.st, n, e) then "online" else "degraded");
    StatusXray(mid, v.st, n);
    assert Native(mid, n) == Native(w.st, n);
  }

  /** A deploy leaves every other node's runtime and configuration alone. */
  lemma DeployFrame(w: World, n: string, native: bool, e: DeployEnv, m: string)
    requires m != n
    ensures var v := Deploy(w, n, native, e);
            && (m in v.rt <==> m in w.rt) && (m in w.rt ==> v.rt[m] == w.rt[m])
            && Xray(v.st, m) == Xray(w.st, m) && Native(v.st, m) == Native(w.st, m)
  {
    DeployDrift(w, n, native, e);
    DriftView(w.st, Deploy(w, n, native, e).st, {n}, m);
    ViewDeterminesRuntime(w.st, Deploy(w, n, native, e).st, m);
  }

  lemma NativeStable(w: World, n: string, native: bool, e: DeployEnv, m: string)
    ensures Native(Deploy(w, n, native, e).st, m) == Native(w.st, m)
    ensures !native ==> RuntimeOf(Deploy(w, n, native, e), m).native == RuntimeOf(w, m).native
  {
  }
}
