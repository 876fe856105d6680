/** What a committed transaction has stored: the submitted record, tidied, in its place, and nothing else. */
module Submitted {
  import opened Wrappers
  import opened Lists
  import opened Sorting
  import opened Text
  import opened Entities
  import Inbounds
  import Outbounds
  import Groups
  import Rules
  import opened Operations
  import opened Integrity
  import opened Transitions
  import opened Rollback
  import opened Deployment
  import opened Transactions
  import opened RoutingMeaning

  // ---------- the end state against the state before ----------

  /** The same state up to inbound statuses and the missing secrets that a deploy fills in. */
  ghost predicate Deployed(a: State, b: State) {
    b == a.(inbounds := b.inbounds) && Pointwise(a.inbounds, b.inbounds, InboundDrift)
  }

  ghost predicate Commits(w: World, op: Operation, env: Env) {
    && IdsUnique(w.st) && Fresh(w.st, op) && Covers(w.st, op, env) && Transact(w, op, env).1.Committed?
  }

  lemma CommittedState(w: World, op: Operation, env: Env)
    requires Commits(w, op, env)
    ensures Forward(w.st, op, env.now).Ok?
    ensures Deployed(Forward(w.st, op, env.now).value, Transact(w, op, env).0.st)
  {
    var next, v, ns := Forward(w.st, op, env.now).value, Transact(w, op, env).0, NodeSet(DeployNodes(w.st, op));
    TransactState(w, op, env);
    TransactOutbounds(w, op, env);
    forall i | 0 <= i < |next.inbounds| ensures InboundDrift(next.inbounds[i], v.st.inbounds[i]) {
      assert InboundDriftIn(ns)(next.inbounds[i], v.st.inbounds[i]);
    }
  }

  // ---------- rules ----------

  ghost predicate TrimmedAll(xs: seq<string>, ys: seq<string>) {
    |ys| == |xs| && forall i | 0 <= i < |xs| :: ys[i] == Trim(xs[i])
  }

  /** The stored rule against the submitted one. */
  ghost predicate TidyRule(raw: Rule, r: Rule) {
    && r.inboundIds == raw.inboundIds && r.userIds == raw.userIds && r.priority == raw.priority
    && r.name == Trim(raw.name) && r.nodeId == Trim(raw.nodeId)
    && r.outboundId == Trim(raw.outboundId) && r.groupId == Trim(raw.groupId)
    && TrimmedAll(raw.matcher.domains, r.matcher.domains) && TrimmedAll(raw.matcher.ips, r.matcher.ips)
    && r.matcher.ports == Trim(raw.matcher.ports) && r.matcher.network == Lower(Trim(raw.matcher.network))
    && |r.matcher.protocols| == |raw.matcher.protocols|
    && (forall i | 0 <= i < |raw.matcher.protocols| ::
          r.matcher.protocols[i] == Lower(Trim(raw.matcher.protocols[i])))
  }

  lemma NormalizedRule(raw: Rule)
    requires Rules.Normalize(raw).Ok?
    ensures TidyRule(raw, Rules.Normalize(raw).value)
  {
  }

  /** Main result: the created rule is appended, enabled, with everything the administrator submitted. */
  lemma RuleCreated(w: World, id: string, raw: Rule, env: Env) returns (r: Rule)
    requires Commits(w, CreateRule(id, raw), env)
    ensures TidyRule(raw, r) && r.id == id && r.enabled && r.createdAt == r.updatedAt == env.now
    ensures Deployed(w.st.(rules := w.st.rules + [r]), Transact(w, CreateRule(id, raw), env).0.st)
  {
    CommittedState(w, CreateRule(id, raw), env);
    NormalizedRule(raw);
    r := Rules.Normalize(raw).value.(id := id, enabled := true, createdAt := env.now, updatedAt := env.now);
  }

  lemma RulePut(st: State, id: string, raw: Rule, y: Rule, now: Time, next: State) returns (was: Rule, r: Rule)
    requires Unique(st.rules, RuleKey) && Rules.Update(st, id, y, now) == Ok(next) && TidyRule(raw, y)
    ensures was in st.rules && was.id == id && TidyRule(raw, r)
    ensures r.id == id && r.enabled == y.enabled && r.createdAt == was.createdAt && r.updatedAt == now
    ensures next == st.(rules := Overwritten(st.rules, RuleKey, id, r))
  {
    was := RuleOf(st, id).value;
    r := y.(id := id, createdAt := was.createdAt, updatedAt := now);
    ReplaceOverwrites(st.rules, RuleKey, id, r);
  }

  lemma RuleInput(st: State, op: Operation, now: Time) returns (y: Rule)
    requires op.UpdateRule? && Forward(st, op, now).Ok?
    ensures TidyRule(op.rule, y) && y.enabled == op.rule.enabled
    ensures Rules.Update(st, op.id, y, now) == Forward(st, op, now)
  {
    y := Rules.Normalize(op.rule).value;
    NormalizedRule(op.rule);
  }

  /** Main result: the updated rule takes the place of the old one, of which it keeps the creation time. */
  lemma RuleUpdated(w: World, id: string, raw: Rule, env: Env) returns (was: Rule, r: Rule)
    requires Commits(w, UpdateRule(id, raw), env)
    ensures was in w.st.rules && was.id == id
    ensures TidyRule(raw, r) && r.id == id && r.enabled == raw.enabled
    ensures r.createdAt == was.createdAt && r.updatedAt == env.now
    ensures Deployed(w.st.(rules := Overwritten(w.st.rules, RuleKey, id, r)),
                     Transact(w, UpdateRule(id, raw), env).0.st)
  {
    CommittedState(w, UpdateRule(id, raw), env);
    var y := RuleInput(w.st, UpdateRule(id, raw), env.now);
    was, r := RulePut(w.st, id, raw, y, env.now, Forward(w.st, UpdateRule(id, raw), env.now).value);
  }

  lemma RuleDropped(st: State, op: Operation, now: Time)
    requires op.DeleteRule? && Forward(st, op, now).Ok?
    ensures Forward(st, op, now).value == st.(rules := Filter(st.rules, Other(RuleKey, op.id)))
  {
    WithoutFilters(st.rules, RuleKey, op.id);
  }

  lemma RuleDeleted(w: World, id: string, env: Env)
    requires Commits(w, DeleteRule(id), env)
    ensures Deployed(w.st.(rules := Filter(w.st.rules, Other(RuleKey, id))), Transact(w, DeleteRule(id), env).0.st)
  {
    CommittedState(w, DeleteRule(id), env);
    RuleDropped(w.st, DeleteRule(id), env.now);
  }

  /** A proxy that ignores blanks around a pattern and, for networks and protocols, letter case; a blank condition on
      ports or networks accepts every flow. */
  ghost predicate LenientOn(p: Patterns, s: string, f: Flow) {
    && p.domain(Trim(s), f) == p.domain(s, f) && p.ip(Trim(s), f) == p.ip(s, f)
    && p.protocol(Lower(Trim(s)), f) == p.protocol(s, f)
    && p.port(s, f) == (Trim(s) == "" || p.port(Trim(s), f))
    && p.network(s, f) == (Trim(s) == "" || p.network(Lower(Trim(s)), f))
  }

  ghost predicate Lenient(p: Patterns) {
    forall s, f :: LenientOn(p, s, f)
  }

  lemma AnyOf(xs: seq<string>, ys: seq<string>, f: Flow, a: (string, Flow) -> bool)
    requires |ys| == |xs| && forall i | 0 <= i < |xs| :: a(ys[i], f) == a(xs[i], f)
    ensures (exists y :: y in ys && a(y, f)) <==> exists x :: x in xs && a(x, f)
  {
    if y :| y in ys && a(y, f) {
      var i :| 0 <= i < |ys| && ys[i] == y;
      assert xs[i] in xs && a(xs[i], f);
    }
    if x :| x in xs && a(x, f) {
      var i :| 0 <= i < |xs| && xs[i] == x;
      assert ys[i] in ys && a(ys[i], f);
    }
  }

  lemma BlankAccepts(raw: Rule, r: Rule, f: Flow, p: Patterns)
    requires TidyRule(raw, r) && Lenient(p)
    ensures var m, n := raw.matcher, r.matcher;
            && (m.ports == "" || p.port(m.ports, f) <==> n.ports == "" || p.port(n.ports, f))
            && (m.network == "" || p.network(m.network, f) <==> n.network == "" || p.network(n.network, f))
  {
    assert LenientOn(p, raw.matcher.ports, f) && LenientOn(p, raw.matcher.network, f);
    assert Trim("") == "" && Lower("") == "";
    assert Lower(Trim(raw.matcher.network)) == "" <==> Trim(raw.matcher.network) == "";
  }

  /** Main result: the stored rule matches the requests that the submitted one matches. */
  lemma TidyMatches(raw: Rule, r: Rule, q: Request, p: Patterns)
    requires TidyRule(raw, r) && Lenient(p)
    ensures Matches(r, q, p) <==> Matches(raw, q, p)
  {
    var m, n, f := raw.matcher, r.matcher, q.flow;
    forall s
      ensures p.domain(Trim(s), f) == p.domain(s, f) && p.ip(Trim(s), f) == p.ip(s, f)
      ensures p.protocol(Lower(Trim(s)), f) == p.protocol(s, f)
    {
      assert LenientOn(p, s, f);
    }
    AnyOf(m.domains, n.domains, f, p.domain);
    AnyOf(m.ips, n.ips, f, p.ip);
    AnyOf(m.protocols, n.protocols, f, p.protocol);
    BlankAccepts(raw, r, f, p);
    assert Accepts(n, f, p) == Accepts(m, f, p);
  }

  // ---------- groups ----------

  /** The stored group against the submitted one. */
  ghost predicate TidyGroup(raw: Group, g: Group) {
    && g.name == Trim(raw.name) && g.nodeId == Trim(raw.nodeId)
    && g.strategy == (if Trim(raw.strategy) == "" then "least_ping" else Lower(Trim(raw.strategy)))
    && g.fallback == (if Trim(raw.fallback) == "" then "blocked" else Trim(raw.fallback))
    && g.expected == (if raw.expected == 0 then 1 else raw.expected)
    && |g.members| == |raw.members|
    && (forall m | m in raw.members ::
          Member(Trim(m.outboundId), m.priority, if m.weight == 0 then 1 else m.weight) in g.members)
    && (forall i, j | 0 <= i < j < |g.members| :: g.members[i].outboundId != g.members[j].outboundId)
    && (forall i, j | 0 <= i < j < |g.members| ::
          g.members[i].priority < g.members[j].priority ||
          (g.members[i].priority == g.members[j].priority &&
           LexLe(g.members[i].outboundId, g.members[j].outboundId)))
  }

  lemma NormalizedGroup(raw: Group)
    requires Groups.Normalize(raw).Ok?
    ensures TidyGroup(raw, Groups.Normalize(raw).value) && Groups.Normalize(raw).value.enabled == raw.enabled
  {
    NormalizedMembers(raw, Groups.Normalize(raw).value);
    assert Lower(Trim(raw.strategy)) == "" <==> Trim(raw.strategy) == "";
    assert forall m :: TidyMember(m) == Member(Trim(m.outboundId), m.priority, if m.weight == 0 then 1 else m.weight);
  }

  lemma GroupCreated(w: World, id: string, raw: Group, env: Env) returns (g: Group)
    requires Commits(w, CreateGroup(id, raw), env)
    ensures TidyGroup(raw, g) && g.id == id && g.enabled && g.createdAt == g.updatedAt == env.now
    ensures Deployed(w.st.(groups := w.st.groups + [g]), Transact(w, CreateGroup(id, raw), env).0.st)
  {
    CommittedState(w, CreateGroup(id, raw), env);
    NormalizedGroup(raw);
    g := Groups.Normalize(raw).value.(id := id, enabled := true, createdAt := env.now, updatedAt := env.now);
  }

  lemma GroupPut(st: State, id: string, raw: Group, y: Group, now: Time, next: State) returns (was: Group, g: Group)
    requires Unique(st.groups, GroupKey) && Groups.Update(st, id, y, now) == Ok(next) && TidyGroup(raw, y)
    ensures was in st.groups && was.id == id && TidyGroup(raw, g)
    ensures g.id == id && g.enabled == y.enabled && g.createdAt == was.createdAt && g.updatedAt == now
    ensures next == st.(groups := Overwritten(st.groups, GroupKey, id, g))
  {
    was := GroupOf(st, id).value;
    g := y.(id := id, createdAt := was.createdAt, updatedAt := now);
    ReplaceOverwrites(st.groups, GroupKey, id, g);
  }

  lemma GroupForward(st: State, op: Operation, now: Time)
    requires op.UpdateGroup? && Forward(st, op, now).Ok?
    ensures Groups.Normalize(op.group).Ok?
    ensures Groups.Update(st, op.id, Groups.Normalize(op.group).value, now) == Forward(st, op, now)
  {
  }

  lemma GroupInput(st: State, op: Operation, now: Time) returns (y: Group)
    requires op.UpdateGroup? && Forward(st, op, now).Ok?
    ensures TidyGroup(op.group, y) && y.enabled == op.group.enabled
    ensures Groups.Update(st, op.id, y, now) == Forward(st, op, now)
  {
    GroupForward(st, op, now);
    NormalizedGroup(op.group);
    y := Groups.Normalize(op.group).value;
  }

  lemma GroupUpdated(w: World, id: string, raw: Group, env: Env) returns (was: Group, g: Group)
    requires Commits(w, UpdateGroup(id, raw), env)
    ensures was in w.st.groups && was.id == id
    ensures TidyGroup(raw, g) && g.id == id && g.enabled == raw.enabled
    ensures g.createdAt == was.createdAt && g.updatedAt == env.now
    ensures Deployed(w.st.(groups := Overwritten(w.st.groups, GroupKey, id, g)),
                     Transact(w, UpdateGroup(id, raw), env).0.st)
  {
    CommittedState(w, UpdateGroup(id, raw), env);
    var y := GroupInput(w.st, UpdateGroup(id, raw), env.now);
    was, g := GroupPut(w.st, id, raw, y, env.now, Forward(w.st, UpdateGroup(id, raw), env.now).value);
  }

  lemma GroupDropped(st: State, op: Operation, now: Time)
    requires op.DeleteGroup? && Forward(st, op, now).Ok?
    ensures Forward(st, op, now).value == st.(groups := Filter(st.groups, Other(GroupKey, op.id)))
  {
    WithoutFilters(st.groups, GroupKey, op.id);
  }

  lemma GroupDeleted(w: World, id: string, env: Env)
    requires Commits(w, DeleteGroup(id), env)
    ensures Deployed(w.st.(groups := Filter(w.st.groups, Other(GroupKey, id))), Transact(w, DeleteGroup(id), env).0.st)
  {
    CommittedState(w, DeleteGroup(id), env);
    GroupDropped(w.st, DeleteGroup(id), env.now);
  }

  // ---------- inbounds ----------

  /** The stored inbound against the submitted fields. */
  ghost predicate TidyInbound(raw: Inbounds.InboundInput, x: Inbound) {
    && x.name == Trim(raw.name) && x.protocol == Lower(Trim(raw.protocol)) && x.nodeId == raw.nodeId
    && x.listen == (if Trim(raw.listen) == "" then "0.0.0.0" else Trim(raw.listen)) && x.port == raw.port
    && x.transport == (if Trim(raw.transport) == "" then "tcp" else Lower(Trim(raw.transport)))
    && x.tlsMode == (if Trim(raw.tlsMode) == "" then "none" else Lower(Trim(raw.tlsMode)))
    && x.settings == raw.settings
  }

  lemma NormalizedInbound(raw: Inbounds.InboundInput)
    requires Inbounds.Normalize(raw).Ok?
    ensures var y := Inbounds.Normalize(raw).value;
            && y.enabled == raw.enabled
            && forall x: Inbound :: TidyInbound(raw, x.(name := y.name, protocol := y.protocol, nodeId := y.nodeId,
                 listen := y.listen, port := y.port, transport := y.transport, tlsMode := y.tlsMode,
                 settings := y.settings))
  {
    TrimTwice(raw.listen);
    TrimTwice(raw.transport);
    TrimTwice(raw.tlsMode);
  }

  lemma InboundCreated(w: World, id: string, raw: Inbounds.InboundInput, env: Env) returns (x: Inbound)
    requires Commits(w, CreateInbound(id, raw), env)
    ensures TidyInbound(raw, x) && x.id == id && x.enabled && x.realityKey == x.ssPassword == ""
    ensures x.createdAt == x.updatedAt == env.now
    ensures Deployed(w.st.(inbounds := w.st.inbounds + [x]), Transact(w, CreateInbound(id, raw), env).0.st)
  {
    CommittedState(w, CreateInbound(id, raw), env);
    NormalizedInbound(raw);
    x := Inbounds.FromInput(id, Inbounds.Normalize(raw).value, env.now);
  }

  lemma InboundUpdated(w: World, id: string, raw: Inbounds.InboundInput, env: Env) returns (was: Inbound, x: Inbound)
    requires Commits(w, UpdateInbound(id, raw), env)
    ensures was in w.st.inbounds && was.id == id
    ensures TidyInbound(raw, x) && x.id == id && x.enabled == raw.enabled
    ensures x.createdAt == was.createdAt && x.updatedAt == env.now && x.ssPassword == was.ssPassword
    ensures x.realityKey == if x.tlsMode == "reality" then was.realityKey else ""
    ensures Deployed(w.st.(inbounds := Overwritten(w.st.inbounds, InboundKey, id, x)),
                     Transact(w, UpdateInbound(id, raw), env).0.st)
  {
    CommittedState(w, UpdateInbound(id, raw), env);
    NormalizedInbound(raw);
    was := InboundOf(w.st, id).value;
    x := Inbounds.Apply(was, Inbounds.Normalize(raw).value, env.now);
    ReplaceOverwrites(w.st.inbounds, InboundKey, id, x);
  }

  lemma InboundSwitched(w: World, id: string, on: bool, env: Env) returns (was: Inbound)
    requires Commits(w, EnableInbound(id, on), env)
    ensures was in w.st.inbounds && was.id == id
    ensures Deployed(w.st.(inbounds := Overwritten(w.st.inbounds, InboundKey, id, was.(enabled := on,
                             status := if on then "configured" else "disabled", updatedAt := env.now))),
                     Transact(w, EnableInbound(id, on), env).0.st)
  {
    CommittedState(w, EnableInbound(id, on), env);
    was := InboundOf(w.st, id).value;
    ReplaceOverwrites(w.st.inbounds, InboundKey, id,
                      was.(enabled := on, status := if on then "configured" else "disabled", updatedAt := env.now));
  }

  ghost function OnOther(id: string): Client -> bool {
    (c: Client) => c.inboundId != id
  }

  lemma InboundDropped(st: State, op: Operation, now: Time)
    requires op.DeleteInbound? && Forward(st, op, now).Ok?
    ensures Forward(st, op, now).value == st.(inbounds := Filter(st.inbounds, Other(InboundKey, op.id)),
                                                     clients := Filter(st.clients, OnOther(op.id)))
  {
    WithoutFilters(st.inbounds, InboundKey, op.id);
    SameFilter(st.clients, Inbounds.ClientOf(op.id), OnOther(op.id));
  }

  /** A deleted inbound takes its bindings along. */
  lemma InboundDeleted(w: World, id: string, env: Env)
    requires Commits(w, DeleteInbound(id), env)
    ensures Deployed(w.st.(inbounds := Filter(w.st.inbounds, Other(InboundKey, id)),
                           clients := Filter(w.st.clients, OnOther(id))), Transact(w, DeleteInbound(id), env).0.st)
  {
    CommittedState(w, DeleteInbound(id), env);
    InboundDropped(w.st, DeleteInbound(id), env.now);
  }

  // ---------- outbounds ----------

  /** The stored outbound against the submitted fields; the health record starts anew. */
  ghost predicate TidyOutbound(raw: Outbounds.OutboundInput, secret: string, x: Outbound) {
    && x.name == Trim(raw.name) && x.nodeId == Trim(raw.nodeId) && x.tag == Trim(raw.tag)
    && x.protocol == Lower(Trim(raw.protocol)) && x.settings == raw.settings && x.passwordEnc == secret
    && x.health == Health("unknown", 0, "", 0, 0, 0, "")
  }

  lemma OutboundCreated(w: World, id: string, raw: Outbounds.OutboundInput, secret: string, env: Env)
      returns (x: Outbound)
    requires Commits(w, CreateOutbound(id, raw, secret), env)
    ensures TidyOutbound(raw, secret, x) && x.id == id && x.enabled && x.createdAt == x.updatedAt == env.now
    ensures Deployed(w.st.(outbounds := w.st.outbounds + [x]), Transact(w, CreateOutbound(id, raw, secret), env).0.st)
  {
    CommittedState(w, CreateOutbound(id, raw, secret), env);
    x := Outbounds.FromInput(id, Outbounds.Normalize(raw).value, secret, env.now);
  }

  lemma OutboundUpdated(w: World, id: string, raw: Outbounds.OutboundInput, secret: string, env: Env)
      returns (was: Outbound, x: Outbound)
    requires Commits(w, UpdateOutbound(id, raw, secret), env)
    ensures was in w.st.outbounds && was.id == id
    ensures TidyOutbound(raw, secret, x) && x.id == id && x.enabled == raw.enabled
    ensures x.createdAt == was.createdAt && x.updatedAt == env.now
    ensures Deployed(w.st.(outbounds := Overwritten(w.st.outbounds, OutboundKey, id, x)),
                     Transact(w, UpdateOutbound(id, raw, secret), env).0.st)
  {
    CommittedState(w, UpdateOutbound(id, raw, secret), env);
    was := OutboundOf(w.st, id).value;
    x := Outbounds.Apply(was, Outbounds.Normalize(raw).value, secret, env.now);
    ReplaceOverwrites(w.st.outbounds, OutboundKey, id, x);
  }

  lemma OutboundSwitched(w: World, id: string, on: bool, env: Env) returns (was: Outbound)
    requires Commits(w, EnableOutbound(id, on), env)
    ensures was in w.st.outbounds && was.id == id
    ensures Deployed(w.st.(outbounds := Overwritten(w.st.outbounds, OutboundKey, id,
                                                    was.(enabled := on, updatedAt := env.now))),
                     Transact(w, EnableOutbound(id, on), env).0.st)
  {
    CommittedState(w, EnableOutbound(id, on), env);
    was := OutboundOf(w.st, id).value;
    ReplaceOverwrites(w.st.outbounds, OutboundKey, id, was.(enabled := on, updatedAt := env.now));
  }

  lemma OutboundDropped(st: State, op: Operation, now: Time)
    requires op.DeleteOutbound? && Forward(st, op, now).Ok?
    ensures Forward(st, op, now).value == st.(outbounds := Filter(st.outbounds, Other(OutboundKey, op.id)))
  {
    WithoutFilters(st.outbounds, OutboundKey, op.id);
  }

  lemma OutboundDeleted(w: World, id: string, env: Env)
    requires Commits(w, DeleteOutbound(id), env)
    ensures Deployed(w.st.(outbounds := Filter(w.st.outbounds, Other(OutboundKey, id))),
                     Transact(w, DeleteOutbound(id), env).0.st)
  {
    CommittedState(w, DeleteOutbound(id), env);
    OutboundDropped(w.st, DeleteOutbound(id), env.now);
  }

  // ---------- which nodes are deployed ----------

  /** Where the record with the identifier lies in the state. */
  ghost predicate LiesOn(st: State, op: Operation, n: string) {
    if op.CreateInbound? || op.UpdateInbound? || op.EnableInbound? || op.DeleteInbound? then
      exists x :: x in st.inbounds && x.id == op.id && x.nodeId == n
    else if op.CreateOutbound? || op.UpdateOutbound? || op.EnableOutbound? || op.DeleteOutbound? then
      exists x :: x in st.outbounds && x.id == op.id && x.nodeId == n
    else if op.CreateGroup? || op.UpdateGroup? || op.DeleteGroup? then
      exists x :: x in st.groups && x.id == op.id && x.nodeId == n
    else exists x :: x in st.rules && x.id == op.id && x.nodeId == n
  }

  lemma RecordLies(st: State, op: Operation, n: string)
    requires IdsUnique(st) && LiesOn(st, op, n)
    ensures op.UpdateInbound? || op.EnableInbound? || op.DeleteInbound? ==> InboundNode(st, op.id) == n
    ensures op.UpdateOutbound? || op.EnableOutbound? || op.DeleteOutbound? ==> OutboundNode(st, op.id) == n
    ensures op.UpdateGroup? || op.DeleteGroup? ==> GroupNode(st, op.id) == n
    ensures op.UpdateRule? || op.DeleteRule? ==> RuleNode(st, op.id) == n
  {
    forall x | x in st.inbounds && x.id == op.id ensures InboundOf(st, op.id) == Some(x) {
      UniqueIn(st.inbounds, InboundKey, x);
    }
    forall x | x in st.outbounds && x.id == op.id ensures OutboundOf(st, op.id) == Some(x) {
      UniqueIn(st.outbounds, OutboundKey, x);
    }
    forall x | x in st.groups && x.id == op.id ensures GroupOf(st, op.id) == Some(x) {
      UniqueIn(st.groups, GroupKey, x);
    }
    forall x | x in st.rules && x.id == op.id ensures RuleOf(st, op.id) == Some(x) {
      UniqueIn(st.rules, RuleKey, x);
    }
  }

  /** The node a submitted record names. */
  ghost function Names(op: Operation): string {
    if op.CreateInbound? || op.UpdateInbound? then op.inbound.nodeId
    else if op.CreateOutbound? || op.UpdateOutbound? then Trim(op.outbound.nodeId)
    else if op.CreateGroup? || op.UpdateGroup? then Trim(op.group.nodeId)
    else if op.CreateRule? || op.UpdateRule? then Trim(op.rule.nodeId)
    else ""
  }

  /** Main result: the node the record lies on is deployed first, then the one an update moves it to. */
  lemma DeployedInOrder(st: State, op: Operation, was: string)
    requires IdsUnique(st) && LiesOn(st, op, was) && was != ""
    requires !op.CreateInbound? && !op.CreateOutbound? && !op.CreateGroup? && !op.CreateRule?
    ensures DeployNodes(st, op) == if Names(op) == "" || Names(op) == was then [was] else [was, Names(op)]
  {
    RecordLies(st, op, was);
  }

  // ---------- what is refused as malformed ----------

  ghost predicate BadRule(raw: Rule) {
    || Trim(raw.name) == "" || Trim(raw.nodeId) == ""
    || (Trim(raw.outboundId) == "" && Trim(raw.groupId) == "")
    || (Trim(raw.outboundId) != "" && Trim(raw.groupId) != "")
    || (var n := Lower(Trim(raw.matcher.network)); n != "" && n != "tcp" && n != "udp" && n != "tcp,udp")
  }

  ghost predicate BadMember(ms: seq<Member>, i: int) {
    && 0 <= i < |ms|
    && var m := ms[i];
    || Trim(m.outboundId) == "" || m.priority < 0 || m.priority > 1000
    || (m.weight != 0 && (m.weight < 1 || m.weight > 100))
    || exists j | 0 <= j < i :: Trim(ms[j].outboundId) == Trim(m.outboundId)
  }

  ghost predicate BadGroup(raw: Group) {
    || Trim(raw.name) == "" || Trim(raw.nodeId) == ""
    || Lower(Trim(raw.strategy)) !in ["", "random", "round_robin", "least_ping", "least_load"]
    || |raw.members| == 0 || |raw.members| > 32 || raw.expected < 0 || raw.expected > |raw.members|
    || exists i :: BadMember(raw.members, i)
  }

  ghost predicate BadInbound(raw: Inbounds.InboundInput) {
    var protocol, transport, tls := Lower(Trim(raw.protocol)), Lower(Trim(raw.transport)), Lower(Trim(raw.tlsMode));
    || Trim(raw.name) == ""
    || (protocol != "vless" && protocol != "vmess" && protocol != "trojan" && protocol != "shadowsocks")
    || (transport != "" && transport != "tcp" && transport != "ws" && transport != "grpc")
    || (tls != "" && tls != "none" && tls != "tls" && tls != "reality")
    || raw.port <= 0 || raw.port >= 65536
    || (tls == "reality" && ((protocol != "vless" && protocol != "trojan") || (transport != "" && transport != "tcp")))
  }

  ghost predicate BadOutbound(raw: Outbounds.OutboundInput) {
    var tag := Trim(raw.tag);
    || Trim(raw.name) == "" || Trim(raw.nodeId) == ""
    || |tag| == 0 || |tag| > 40 || tag in ["direct", "blocked", "api"]
    || (exists c | c in tag ::
          !('a' <= c <= 'z') && !('A' <= c <= 'Z') && !('0' <= c <= '9') && c != '_' && c != '.' && c != '-')
    || Lower(Trim(raw.protocol)) !in ["freedom", "blackhole", "socks", "http", "vless", "vmess", "trojan",
         "shadowsocks", "wireguard", "tor", "openvpn", "custom"]
  }

  lemma MemberRefused(ms: seq<Member>, k: nat, seen: set<string>)
    requires k < |ms| && seen == set i | 0 <= i < k :: Trim(ms[i].outboundId)
    ensures var r, t := Groups.NormalizeMembers(ms[k..], seen),
                        Groups.NormalizeMembers(ms[k + 1..], seen + {Trim(ms[k].outboundId)});
            if BadMember(ms, k) then r == Err(InvalidInput) else if t.Err? then r == t else r.Ok?
  {
    assert ms[k..][1..] == ms[k + 1..] && ms[k..][0] == ms[k];
    var id := Trim(ms[k].outboundId);
    assert id in seen <==> exists j | 0 <= j < k :: Trim(ms[j].outboundId) == id;
  }

  lemma {:induction false} MembersRefused(ms: seq<Member>, k: nat, seen: set<string>)
    requires k <= |ms| && seen == set i | 0 <= i < k :: Trim(ms[i].outboundId)
    ensures var r := Groups.NormalizeMembers(ms[k..], seen);
            if exists i | k <= i < |ms| :: BadMember(ms, i) then r == Err(InvalidInput) else r.Ok?
    decreases |ms| - k
  {
    if k < |ms| {
      MemberRefused(ms, k, seen);
      MembersRefused(ms, k + 1, seen + {Trim(ms[k].outboundId)});
    }
  }

  lemma RefusedRules(op: Operation)
    requires op.CreateRule? || op.UpdateRule?
    ensures if BadRule(op.rule) then Rules.Normalize(op.rule) == Err(InvalidInput) else Rules.Normalize(op.rule).Ok?
  {
  }

  lemma RefusedGroups(op: Operation)
    requires op.CreateGroup? || op.UpdateGroup?
    ensures if BadGroup(op.group) then Groups.Normalize(op.group) == Err(InvalidInput)
            else Groups.Normalize(op.group).Ok?
  {
    MembersRefused(op.group.members, 0, {});
    assert op.group.members[0..] == op.group.members;
  }

  lemma Defaulted(s: string, d: string)
    ensures var t := Lower(Trim(s)); Inbounds.DefaultString(t, d) == if t == "" then d else t
  {
    TrimTwice(s);
  }

  lemma RefusedInbounds(op: Operation)
    requires op.CreateInbound? || op.UpdateInbound?
    ensures if BadInbound(op.inbound) then Inbounds.Normalize(op.inbound) == Err(InvalidInput)
            else Inbounds.Normalize(op.inbound).Ok?
  {
    Defaulted(op.inbound.transport, "tcp");
    Defaulted(op.inbound.tlsMode, "none");
  }

  lemma RefusedOutbounds(op: Operation)
    requires op.CreateOutbound? || op.UpdateOutbound?
    ensures if BadOutbound(op.outbound) then Outbounds.Normalize(op.outbound) == Err(InvalidInput)
            else Outbounds.Normalize(op.outbound).Ok?
  {
    var tag := Trim(op.outbound.tag);
    assert forall i | 0 <= i < |tag| :: tag[i] in tag;
  }

  /** The submitted record is malformed. */
  ghost predicate Malformed(op: Operation) {
    match op
    case CreateRule(_, x) => BadRule(x)
    case UpdateRule(_, x) => BadRule(x)
    case CreateGroup(_, x) => BadGroup(x)
    case UpdateGroup(_, x) => BadGroup(x)
    case CreateInbound(_, x) => BadInbound(x)
    case UpdateInbound(_, x) => BadInbound(x)
    case CreateOutbound(_, x, _) => BadOutbound(x)
    case UpdateOutbound(_, x, _) => BadOutbound(x)
    case _ => false
  }

  lemma {:induction false} InboundScans(xs: seq<Inbound>, rules: seq<Rule>, skip: string, named: bool, name: string,
                                        nodeId: string, listen: string, port: int, on: bool, deleting: bool)
    ensures Inbounds.Clash(xs, skip, named, name, nodeId, listen, port) != Some(InvalidInput)
    ensures Inbounds.ReferenceChange(rules, skip, nodeId, on, deleting) != Some(InvalidInput)
    decreases |xs|, |rules|
  {
    if xs != [] { InboundScans(xs[1..], [], skip, named, name, nodeId, listen, port, on, deleting); }
    if rules != [] { InboundScans([], rules[1..], skip, named, name, nodeId, listen, port, on, deleting); }
  }

  lemma {:induction false} OutboundScans(xs: seq<Outbound>, gs: seq<Group>, skip: string, name: string, nodeId: string,
                                         tag: string, on: bool)
    ensures Outbounds.Clash(xs, skip, name, nodeId, tag) != Some(InvalidInput)
    ensures Groups.ReferenceChange(gs, skip, nodeId, on) != Some(InvalidInput)
    decreases |xs|, |gs|
  {
    if xs != [] { OutboundScans(xs[1..], [], skip, name, nodeId, tag, on); }
    if gs != [] { OutboundScans([], gs[1..], skip, name, nodeId, tag, on); }
  }

  lemma {:induction false} MemberScans(st: State, g: Group, ms: seq<Member>)
    ensures Groups.MembersError(st, g, ms) != Some(InvalidInput)
  {
    if ms != [] { MemberScans(st, g, ms[1..]); }
  }

  const MALFORMED: Outcome<State> := Err(InvalidInput)

  /** The closures give other reasons. */
  lemma InboundReasons(st: State, obj: Inbound, id: string, y: Inbounds.InboundInput, now: Time)
    ensures Inbounds.Create(st, obj) != MALFORMED && Inbounds.Update(st, id, y, now) != MALFORMED
  {
    InboundScans(st.inbounds, [], "", true, obj.name, obj.nodeId, obj.listen, obj.port, true, false);
    InboundScans(st.inbounds, st.rules, id, true, y.name, y.nodeId, y.listen, y.port, y.enabled, false);
  }

  lemma InboundSwitchReasons(st: State, id: string, on: bool, now: Time)
    ensures Inbounds.SetEnabled(st, id, on, now) != MALFORMED && Inbounds.Delete(st, id) != MALFORMED
  {
    var f := InboundOf(st, id);
    if f.Some? {
      var x := f.value;
      InboundScans(st.inbounds, st.rules, id, false, x.name, x.nodeId, x.listen, x.port, on, false);
      InboundScans(st.inbounds, st.rules, id, false, x.name, x.nodeId, x.listen, x.port, false, true);
    }
  }

  lemma OutboundReasons(st: State, obj: Outbound, id: string, y: Outbounds.OutboundInput, secret: string, now: Time)
    ensures Outbounds.Create(st, obj) != MALFORMED && Outbounds.Update(st, id, y, secret, now) != MALFORMED
  {
    OutboundScans(st.outbounds, [], "", obj.name, obj.nodeId, obj.tag, true);
    OutboundScans(st.outbounds, st.groups, id, y.name, y.nodeId, y.tag, y.enabled);
  }

  lemma OutboundSwitchReasons(st: State, id: string, on: bool, now: Time)
    ensures Outbounds.SetEnabled(st, id, on, now) != MALFORMED && Outbounds.Delete(st, id) != MALFORMED
  {
    var f := OutboundOf(st, id);
    if f.Some? { OutboundScans(st.outbounds, st.groups, id, f.value.name, f.value.nodeId, f.value.tag, false); }
  }

  lemma ValidationReasons(st: State, g: Group)
    ensures Groups.Validate(st, g) != Some(InvalidInput)
  {
    MemberScans(st, g, g.members);
  }

  lemma GroupReasons(st: State, g: Group, id: string, y: Group, now: Time)
    ensures Groups.Create(st, g) != MALFORMED && Groups.Update(st, id, y, now) != MALFORMED
  {
    ValidationReasons(st, g);
    var f := GroupOf(st, id);
    if f.Some? { ValidationReasons(st, y.(id := f.value.id, createdAt := f.value.createdAt, updatedAt := now)); }
  }

  lemma RefusedInbound(st: State, op: Operation, now: Time)
    requires op.CreateInbound? || op.UpdateInbound?
    ensures Forward(st, op, now) == MALFORMED <==> Malformed(op)
  {
    RefusedInbounds(op);
    var r := Inbounds.Normalize(op.inbound);
    if r.Ok? { InboundReasons(st, Inbounds.FromInput(op.id, r.value, now), op.id, r.value, now); }
  }

  lemma RefusedOutbound(st: State, op: Operation, now: Time)
    requires op.CreateOutbound? || op.UpdateOutbound?
    ensures Forward(st, op, now) == MALFORMED <==> Malformed(op)
  {
    RefusedOutbounds(op);
    var r := Outbounds.Normalize(op.outbound);
    if r.Ok? {
      var obj := Outbounds.FromInput(op.id, r.value, op.passwordEnc, now);
      OutboundReasons(st, obj, op.id, r.value, op.passwordEnc, now);
    }
  }

  lemma RefusedGroup(st: State, op: Operation, now: Time)
    requires op.CreateGroup? || op.UpdateGroup?
    ensures Forward(st, op, now) == MALFORMED <==> Malformed(op)
  {
    RefusedGroups(op);
    var r := Groups.Normalize(op.group);
    if r.Ok? {
      GroupReasons(st, r.value.(id := op.id, enabled := true, createdAt := now, updatedAt := now), op.id, r.value, now);
    }
  }

  lemma RefusedRule(st: State, op: Operation, now: Time)
    requires op.CreateRule? || op.UpdateRule?
    ensures Forward(st, op, now) == MALFORMED <==> Malformed(op)
  {
    RefusedRules(op);
  }

  lemma RefusedOperation(st: State, op: Operation, now: Time)
    ensures Forward(st, op, now) == MALFORMED <==> Malformed(op)
  {
    match op
    case CreateInbound(_, _) => RefusedInbound(st, op, now);
    case UpdateInbound(_, _) => RefusedInbound(st, op, now);
    case EnableInbound(id, on) => InboundSwitchReasons(st, id, on, now);
    case DeleteInbound(id) => InboundSwitchReasons(st, id, true, now);
    case CreateOutbound(_, _, _) => RefusedOutbound(st, op, now);
    case UpdateOutbound(_, _, _) => RefusedOutbound(st, op, now);
    case EnableOutbound(id, on) => OutboundSwitchReasons(st, id, on, now);
    case DeleteOutbound(id) => OutboundSwitchReasons(st, id, true, now);
    case CreateGroup(_, _) => RefusedGroup(st, op, now);
    case UpdateGroup(_, _) => RefusedGroup(st, op, now);
    case CreateRule(_, _) => RefusedRule(st, op, now);
    case UpdateRule(_, _) => RefusedRule(st, op, now);
    case _ =>
  }

  /** Main result: a transaction refuses its input as invalid if and only if the submitted record is malformed, in any
      state. */
  lemma RefusedExactly(w: World, op: Operation, env: Env)
    requires Covers(w.st, op, env)
    ensures Transact(w, op, env).1 == Rejected(InvalidInput) <==> Malformed(op)
    ensures Malformed(op) ==> Transact(w, op, env).0 == w
  {
    RefusedOperation(w.st, op, env.now);
  }
}
