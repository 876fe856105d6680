/** Properties that hold along whole runs of the panel, beside integrity: labels in step, live targets, and distinct
    peer addresses. */
module Runs {
  import opened Wrappers
  import opened Lists
  import opened Text
  import opened Entities
  import opened Compiler
  import Inbounds
  import opened Operations
  import opened Integrity
  import opened Rollback
  import opened Deployment
  import opened Transactions
  import opened RoutingMeaning
  import opened Admin
  import opened AdminTransitions
  import opened Labels
  import opened LiveTargets
  import opened Resolution
  import opened PeerAddresses
  import opened History

  /** One event of a run. */
  lemma RunStep(trace: seq<World>, events: seq<Event>, k: nat)
    requires IsRun(trace, events) && 0 < k < |trace|
    ensures Inv(trace[k - 1].st) && Legal(trace[k - 1], events[k - 1])
    ensures trace[k] == Next(trace[k - 1], events[k - 1])
  {
    IntegrityAlways(trace, events, k - 1);
  }

  lemma RunStart(trace: seq<World>, events: seq<Event>)
    requires IsRun(trace, events)
    ensures LabelsInStep(trace[0].st) && AllLive(trace[0].st) && trace[0].st.peers == []
  {
  }

  // ---------- what deploying transactions leave alone ----------

  lemma ForwardBindings(st: State, op: Operation, now: Time)
    requires Forward(st, op, now).Ok?
    ensures var next := Forward(st, op, now).value;
            next.users == st.users && next.peers == st.peers && forall c | c in next.clients :: c in st.clients
  {
    ForwardShape(st, op, now);
    if op.DeleteInbound? { FilterMembers(st.clients, Inbounds.ClientOf(op.id)); }
  }

  /** Users and peers stay, and no binding appears. */
  lemma TransactBindings(w: World, op: Operation, env: Env)
    requires IdsUnique(w.st) && Fresh(w.st, op) && Covers(w.st, op, env)
    ensures var v := Transact(w, op, env).0.st;
            v.users == w.st.users && v.peers == w.st.peers && forall c | c in v.clients :: c in w.st.clients
  {
    TransactState(w, op, env);
    if Forward(w.st, op, env.now).Ok? { ForwardBindings(w.st, op, env.now); }
  }

  // ---------- labels ----------

  lemma FewerBindings(a: State, b: State)
    requires LabelsInStep(a) && b.users == a.users && forall c | c in b.clients :: c in a.clients
    ensures LabelsInStep(b)
  {
    forall c | c in b.clients && UserOf(b, c.userId).Some?
      ensures c.email == UserLabel(UserOf(b, c.userId).value.username)
    {
      assert c in a.clients;
    }
  }

  lemma UserCreateKeepsLabels(st: State, u: User)
    requires Inv(st) && LabelsInStep(st) && CreateUser(st, u).Ok?
    ensures LabelsInStep(CreateUser(st, u).value)
  {
    FindAppend(st.users, UserKey, u);
    forall c | c in st.clients ensures UserOf(st, c.userId).Some? { IdsFind(st.users, UserKey, c.userId); }
  }

  lemma UserPlanKeepsLabels(st: State, id: string, planId: string, y: User)
    requires LabelsInStep(st) && ApplyPlan(st, id, planId, y).Ok?
    ensures LabelsInStep(ApplyPlan(st, id, planId, y).value)
  {
    FindReplace(st.users, UserKey, id, y.(id := id, username := UserOf(st, id).value.username, planId := planId));
  }

  lemma UserDeleteKeepsLabels(st: State, id: string)
    requires Inv(st) && LabelsInStep(st) && DeleteUser(st, id).Ok?
    ensures LabelsInStep(DeleteUser(st, id).value)
  {
    FindWithout(st.users, UserKey, id);
    FilterMembers(st.clients, ClientNotOf(id));
  }

  lemma BooksKeepLabels(a: State, b: State)
    requires LabelsInStep(a) && SameReferences(a, b)
    ensures LabelsInStep(b)
  {
    forall c | c in b.clients && UserOf(b, c.userId).Some?
      ensures c.email == UserLabel(UserOf(b, c.userId).value.username)
    {
      var i :| 0 <= i < |b.clients| && b.clients[i] == c;
      assert a.clients[i] in a.clients && a.clients[i].userId == c.userId && a.clients[i].email == c.email;
      SameKeys(a.users, b.users, UserKey, c.userId);
    }
  }

  /** A saved edit that renames a user with bindings. */
  predicate RenamesBound(st: State, ev: Event) {
    && ev.Administering? && ev.saved && ev.change.UserEdit?
    && (var id, y := ev.change.id, ev.change.user;
        && UserOf(st, id).Some? && Trim(y.username) != "" && Fold(y.username) != UserOf(st, id).value.username
        && exists c :: c in st.clients && c.userId == id)
  }

  predicate TouchesLabels(op: AdminOp) {
    op.UserCreate? || op.UserEdit? || op.UserPlan? || op.UserDelete? || op.UserAttach? || op.UserDetach? ||
        op.Bookkeeping?
  }

  lemma OthersTouchNone(st: State, op: AdminOp)
    requires Apply(st, op).Ok? && !TouchesLabels(op)
    ensures Apply(st, op).value.users == st.users && Apply(st, op).value.clients == st.clients
  {
  }

  lemma DetachKeepsLabels(st: State, inboundId: string, userId: string)
    requires LabelsInStep(st) && Detach(st, inboundId, userId).Ok?
    ensures LabelsInStep(Detach(st, inboundId, userId).value)
  {
    FilterMembers(st.clients, NotBinding(inboundId, userId));
    FewerBindings(st, Detach(st, inboundId, userId).value);
  }

  lemma OthersKeepLabels(st: State, op: AdminOp)
    requires LabelsInStep(st) && Apply(st, op).Ok? && !TouchesLabels(op)
    ensures LabelsInStep(Apply(st, op).value)
  {
    OthersTouchNone(st, op);
    FewerBindings(st, Apply(st, op).value);
  }

  lemma AdminKeepsLabels(st: State, op: AdminOp)
    requires Inv(st) && LabelsInStep(st) && Books(st, op) && Apply(st, op).Ok?
    requires !RenamesBound(st, Administering(op, true))
    ensures LabelsInStep(Apply(st, op).value)
  {
    match op
    case UserCreate(u) => UserCreateKeepsLabels(st, u);
    case UserEdit(id, y) => RenameAndLabels(st, id, y);
    case UserPlan(id, planId, y) => UserPlanKeepsLabels(st, id, planId, y);
    case UserDelete(id) => UserDeleteKeepsLabels(st, id);
    case UserAttach(id, x, u, c) => AttachKeepsLabels(st, id, x, u, c);
    case UserDetach(x, u) => DetachKeepsLabels(st, x, u);
    case Bookkeeping(next) => BooksKeepLabels(st, next);
    case _ => OthersKeepLabels(st, op);
  }

  lemma NextKeepsLabels(w: World, ev: Event)
    requires Inv(w.st) && Legal(w, ev) && LabelsInStep(w.st) && !RenamesBound(w.st, ev)
    ensures LabelsInStep(Next(w, ev).st)
  {
    match ev
    case Deploying(op, env) =>
      TransactBindings(w, op, env);
      FewerBindings(w.st, Next(w, ev).st);
    case Administering(op, saved) =>
      if Apply(w.st, op).Ok? && saved { AdminKeepsLabels(w.st, op); }
    case Redeploying(n, native, e) =>
      DeployDrift(w, n, native, e);
      FewerBindings(w.st, Next(w, ev).st);
  }

  /** Labels are in step in every state of every run in which no user with bindings was renamed. */
  lemma {:induction false} LabelsAlways(trace: seq<World>, events: seq<Event>, k: nat)
    requires IsRun(trace, events) && k < |trace|
    requires forall j | 0 <= j < k :: !RenamesBound(trace[j].st, events[j])
    ensures LabelsInStep(trace[k].st)
  {
    if k == 0 {
      RunStart(trace, events);
    } else {
      LabelsAlways(trace, events, k - 1);
      RunStep(trace, events, k);
      NextKeepsLabels(trace[k - 1], events[k - 1]);
    }
  }

  // ---------- live targets ----------

  /** An outbound update that moves away or disables an outbound which an enabled rule names. */
  predicate Strands(st: State, ev: Event) {
    ev.Deploying? && ev.op.UpdateOutbound? && !Stays(st, ev.op) && NamedByEnabled(st.rules, ev.op.id)
  }

  lemma BooksKeepLive(a: State, b: State)
    requires AllLive(a) && SameReferences(a, b)
    ensures AllLive(b)
  {
    forall r | r in b.rules ensures LiveOutbound(b.outbounds, r) {
      assert LiveOutbound(a.outbounds, r);
      assert forall i | 0 <= i < |a.outbounds| :: OutboundKey(a.outbounds[i]) == OutboundKey(b.outbounds[i]);
      SameKeys(a.outbounds, b.outbounds, OutboundKey, r.outboundId);
    }
  }

  lemma ForgettingKeepsLive(st: State, id: string)
    requires AllLive(st) && DeleteUser(st, id).Ok?
    ensures AllLive(DeleteUser(st, id).value)
  {
    var rs := ForgetUserAll(st.rules, id);
    forall r | r in rs ensures LiveOutbound(st.outbounds, r) {
      var i :| 0 <= i < |rs| && rs[i] == r;
      assert st.rules[i] in st.rules && LiveOutbound(st.outbounds, st.rules[i]);
    }
  }

  lemma SameTargetsLive(a: State, b: State)
    requires AllLive(a) && b.rules == a.rules && b.outbounds == a.outbounds
    ensures AllLive(b)
  {
  }

  lemma AdminKeepsLive(st: State, op: AdminOp)
    requires AllLive(st) && Books(st, op) && Apply(st, op).Ok?
    ensures AllLive(Apply(st, op).value)
  {
    match op
    case UserDelete(id) => ForgettingKeepsLive(st, id);
    case Bookkeeping(next) => BooksKeepLive(st, next);
    case _ => SameTargetsLive(st, Apply(st, op).value);
  }

  lemma NextKeepsLive(w: World, ev: Event)
    requires Inv(w.st) && Legal(w, ev) && AllLive(w.st) && !Strands(w.st, ev)
    ensures AllLive(Next(w, ev).st)
  {
    match ev
    case Deploying(op, env) => TransactKeepsLive(w, op, env);
    case Administering(op, saved) =>
      if Apply(w.st, op).Ok? && saved { AdminKeepsLive(w.st, op); }
    case Redeploying(n, native, e) =>
      DeployDrift(w, n, native, e);
      DriftKeepsLive(w.st, Deploy(w, n, native, e).st, {n});
  }

  lemma {:induction false} LiveAlways(trace: seq<World>, events: seq<Event>, k: nat)
    requires IsRun(trace, events) && k < |trace|
    requires forall j | 0 <= j < k :: !Strands(trace[j].st, events[j])
    ensures AllLive(trace[k].st)
  {
    if k == 0 {
      RunStart(trace, events);
    } else {
      LiveAlways(trace, events, k - 1);
      RunStep(trace, events, k);
      NextKeepsLive(trace[k - 1], events[k - 1]);
    }
  }

  /** Main result: in every state of a run without such updates and renames, traffic through any binding meets the
      administrator's choice in the configuration the state compiles to. */
  lemma RoutedAlways(trace: seq<World>, events: seq<Event>, k: nat, nodeId: string, cfg: XrayConfig, c: Client,
                     flow: Flow, p: Patterns) returns (choice: Option<Choice>)
    requires IsRun(trace, events) && k < |trace|
    requires forall j | 0 <= j < k :: !RenamesBound(trace[j].st, events[j]) && !Strands(trace[j].st, events[j])
    requires c in trace[k].st.clients && Xray(trace[k].st, nodeId) == Some(cfg)
    ensures Chooses(trace[k].st, nodeId, Request(c.inboundId, c.userId, flow), p, choice)
    ensures var hit := FirstMatch(cfg.rules, SeenThrough(c, flow), p);
            && hit.Some? == choice.Some?
            && (Leaves(trace[k].st, nodeId, cfg, hit, OrDirect(choice)) <==>
               Served(trace[k].st, nodeId, OrDirect(choice)))
  {
    IntegrityAlways(trace, events, k);
    LabelsAlways(trace, events, k);
    LiveAlways(trace, events, k);
    choice := BindingRouted(trace[k].st, nodeId, cfg, c, flow, p);
  }

  // ---------- peer addresses ----------

  /** A peer is created with an address that createWGPeer chose in the present state. */
  ghost predicate LendsAddress(st: State, ev: Event, n: Notation) {
    ev.Administering? && ev.change.PeerCreate? ==>
      Lent(st.peers, n, ev.change.peer.nodeId, ev.change.peer.interface, ev.change.peer.address)
  }

  lemma AdminKeepsAddresses(st: State, op: AdminOp, n: Notation)
    requires Faithful(n) && AddressesDistinct(st.peers, n) && Books(st, op) && Apply(st, op).Ok?
    requires LendsAddress(st, Administering(op, true), n)
    ensures AddressesDistinct(Apply(st, op).value.peers, n)
  {
    match op
    case PeerCreate(p) => LentKeeps(st.peers, n, p);
    case PeerDelete(id) => DropKeeps(st.peers, n, id, PeerNotOf(id));
    case UserDelete(id) => DropKeeps(st.peers, n, id, PeerNotOf(id));
    case Bookkeeping(next) => BooksKeep(st, next, n);
    case _ => assert Apply(st, op).value.peers == st.peers;
  }

  lemma NextKeepsAddresses(w: World, ev: Event, n: Notation)
    requires Inv(w.st) && Legal(w, ev) && Faithful(n) && AddressesDistinct(w.st.peers, n) && LendsAddress(w.st, ev, n)
    ensures AddressesDistinct(Next(w, ev).st.peers, n)
  {
    match ev
    case Deploying(op, env) => TransactBindings(w, op, env);
    case Administering(op, saved) =>
      if Apply(w.st, op).Ok? && saved { AdminKeepsAddresses(w.st, op, n); }
    case Redeploying(k, native, e) => DeployDrift(w, k, native, e);
  }

  /** Peers of one node and interface have distinct addresses in every state of every run whose peers got theirs from
      createWGPeer. */
  lemma {:induction false} AddressesAlways(trace: seq<World>, events: seq<Event>, n: Notation, k: nat)
    requires IsRun(trace, events) && k < |trace| && Faithful(n)
    requires forall j | 0 <= j < k :: LendsAddress(trace[j].st, events[j], n)
    ensures AddressesDistinct(trace[k].st.peers, n)
  {
    if k == 0 {
      RunStart(trace, events);
    } else {
      AddressesAlways(trace, events, n, k - 1);
      RunStep(trace, events, k);
      NextKeepsAddresses(trace[k - 1], events[k - 1], n);
    }
  }
}
