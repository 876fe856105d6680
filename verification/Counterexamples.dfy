/** Concrete inputs on which the panel does not do what one might expect; the exact conditions are in the lemmas
    named. */
module Counterexamples {
  import opened Wrappers
  import opened Lists
  import opened Text
  import opened Entities
  import Outbounds
  import Groups
  import opened Compiler
  import opened Operations
  import opened Integrity
  import Transitions
  import opened Views
  import opened RoutingMeaning
  import opened Admin
  import opened Labels
  import opened Resolution
  import HealthPorts
  import Sorting
  import Subscriptions
  import Accounting
  import opened Persistence

  const A := "aaaaaaaaaaaaaaaaaaaaaaaa"
  const B := "bbbbbbbbbbbbbbbbbbbbbbbb"
  const O := "000000000000000000000000"
  const R := "111111111111111111111111"
  const G := "222222222222222222222222"
  const U := "333333333333333333333333"
  const V := "444444444444444444444444"
  const P := "555555555555555555555555"
  const I := "666666666666666666666666"

  function ANode(id: string): Node {
    Node(id, id, true, false, "online", 0, "eth0", "")
  }

  function AnOutbound(nodeId: string, tag: string, protocol: string): Outbound {
    Outbound(O, "exit", nodeId, tag, protocol, "", "", Outbounds.UNCHECKED, true, 1, 1)
  }

  function ARule(users: seq<string>, outboundId: string, groupId: string): Rule {
    Rule(R, "route", A, 1, true, [], users, ANY, outboundId, groupId, 1, 1)
  }

  // ---------- an outbound moves away from its rule, then changes its tag ----------

  const MOVE := UpdateOutbound(O, Outbounds.OutboundInput("exit", B, "exit-1", "freedom", "", true), "")
  const RETAG := UpdateOutbound(O, Outbounds.OutboundInput("exit", B, "exit-2", "freedom", "", true), "")

  function TwoNodes(nodeId: string, tag: string): State {
    EMPTY.(nodes := [ANode(A), ANode(B)], outbounds := [AnOutbound(nodeId, tag, "freedom")],
        rules := [ARule([], O, "")])
  }

  lemma HexNames()
    ensures HexId(A) && HexId(B) && HexId(O) && HexId(R) && HexId(G) && HexId(U) && HexId(V) && HexId(P) && HexId(I)
    ensures A != B && U != V && O != P
  {
  }

  lemma TwoNodesHaveIntegrity(nodeId: string, tag: string)
    requires nodeId == A || nodeId == B
    requires TagOk(tag)
    ensures Inv(TwoNodes(nodeId, tag))
  {
    HexNames();
    var st := TwoNodes(nodeId, tag);
    assert st.nodes[0].id == A && st.nodes[1].id == B;
    assert A in NodeIds(st) && B in NodeIds(st);
    assert st.outbounds[0].id == O && O in OutboundIds(st);
    assert RuleFits(st, st.rules[0]);
  }

  lemma PlainTags()
    ensures TagOk("exit-1") && TagOk("exit-2")
  {
    assert "exit-1"[0] == 'e' && "exit-2"[0] == 'e';
    TrimSolid("exit-1");
    TrimSolid("exit-2");
    assert Lower("exit-1")[0] == 'e' && Lower("exit-2")[0] == 'e';
    assert "gbm-"[0] == 'g' && "gb-bal-"[0] == 'g';
  }

  lemma LowerPlain(s: string)
    requires forall i | 0 <= i < |s| :: !('A' <= s[i] <= 'Z')
    ensures Lower(s) == s
  {
  }

  lemma AlreadyNormal(x: Outbounds.OutboundInput)
    requires x.name != "" && Trim(x.name) == x.name && x.nodeId != "" && Trim(x.nodeId) == x.nodeId
    requires TagOk(x.tag) && Trim(x.tag) == x.tag
    requires Trim(x.protocol) == x.protocol && Lower(x.protocol) == x.protocol && Outbounds.ValidProtocol(x.protocol)
    ensures Outbounds.Normalize(x) == Ok(x)
  {
  }

  lemma ExitIsNormal(nodeId: string, tag: string, protocol: string)
    requires nodeId != "" && Trim(nodeId) == nodeId && TagOk(tag) && Trim(tag) == tag
    requires Trim(protocol) == protocol && Lower(protocol) == protocol && Outbounds.ValidProtocol(protocol)
    ensures var x := Outbounds.OutboundInput("exit", nodeId, tag, protocol, "", true); Outbounds.Normalize(x) == Ok(x)
  {
    TrimSolid("exit");
    AlreadyNormal(Outbounds.OutboundInput("exit", nodeId, tag, protocol, "", true));
  }

  lemma Protocols()
    ensures Trim("freedom") == "freedom" && Lower("freedom") == "freedom" && Outbounds.ValidProtocol("freedom")
    ensures Trim("blackhole") == "blackhole" && Lower("blackhole") == "blackhole" &&
            Outbounds.ValidProtocol("blackhole")
  {
    TrimSolid("freedom");
    LowerPlain("freedom");
    TrimSolid("blackhole");
    LowerPlain("blackhole");
  }

  lemma MoveIsNormal(tag: string)
    requires TagOk(tag) && Trim(tag) == tag
    ensures var x := Outbounds.OutboundInput("exit", B, tag, "freedom", "", true); Outbounds.Normalize(x) == Ok(x)
  {
    TrimSolid(B);
    Protocols();
    ExitIsNormal(B, tag, "freedom");
  }

  /** Updating the only outbound. */
  lemma PutTheOnly(st: State, x: Outbound, y: Outbounds.OutboundInput, now: Time)
    requires st.outbounds == [x] && x.id == O
    requires NodeForWork(st, y.nodeId) == None && !Outbounds.Reserved(y.tag)
    requires Groups.ReferenceChange(st.groups, O, y.nodeId, y.enabled) == None
    ensures Outbounds.Update(st, O, y, "", now) == Ok(st.(outbounds := [Outbounds.Apply(x, y, "", now)]))
  {
    assert IndexOf([x], OutboundKey, O) == 0;
    assert OutboundOf(st, O) == Some(x);
    assert Outbounds.Clash([x], O, y.name, y.nodeId, y.tag) == None;
    assert Replace([x], OutboundKey, O, Outbounds.Apply(x, y, "", now)) == [Outbounds.Apply(x, y, "", now)];
  }

  lemma UpdateIs(st: State, y: Outbounds.OutboundInput, n: Outcome<Outbounds.OutboundInput>, now: Time)
    requires Outbounds.Normalize(y) == n && n.Ok?
    ensures Forward(st, UpdateOutbound(O, y, ""), now) == Outbounds.Update(st, O, n.value, "", now)
  {
    var op := UpdateOutbound(O, y, "");
    assert op.UpdateOutbound? && op.outbound == y;
  }

  lemma UpdateTheOnly(st: State, x: Outbound, y: Outbounds.OutboundInput, now: Time)
    requires st.outbounds == [x] && x.id == O && Outbounds.Normalize(y) == Ok(y)
    requires NodeForWork(st, y.nodeId) == None && !Outbounds.Reserved(y.tag)
    requires Groups.ReferenceChange(st.groups, O, y.nodeId, y.enabled) == None
    ensures Forward(st, UpdateOutbound(O, y, ""), now) == Ok(st.(outbounds := [Outbounds.Apply(x, y, "", now)]))
  {
    UpdateIs(st, y, Ok(y), now);
    PutTheOnly(st, x, y, now);
  }

  lemma NodesAtWork(st: State)
    requires st.nodes == [ANode(A), ANode(B)]
    ensures NodeForWork(st, A) == None && NodeForWork(st, B) == None
  {
    HexNames();
    assert st.nodes[1].id == B;
  }

  function Moved(now: Time): State {
    TwoNodes(A, "exit-1").(outbounds := [Outbounds.Apply(AnOutbound(A, "exit-1", "freedom"), MOVE.outbound, "", now)])
  }

  lemma MoveRuns(now: Time)
    ensures Forward(TwoNodes(A, "exit-1"), MOVE, now) == Ok(Moved(now))
    ensures Forward(Moved(now), RETAG, now).Ok?
  {
    PlainTags();
    TrimSolid("exit-1");
    TrimSolid("exit-2");
    MoveIsNormal("exit-1");
    MoveIsNormal("exit-2");
    NodesAtWork(TwoNodes(A, "exit-1"));
    NodesAtWork(Moved(now));
    UpdateTheOnly(TwoNodes(A, "exit-1"), AnOutbound(A, "exit-1", "freedom"), MOVE.outbound, now);
    UpdateTheOnly(Moved(now), Moved(now).outbounds[0], RETAG.outbound, now);
  }

  lemma DeployedNodes(now: Time)
    ensures DeployNodes(TwoNodes(A, "exit-1"), MOVE) == [A, B] && DeployNodes(Moved(now), RETAG) == [B]
  {
    TrimSolid(B);
    HexNames();
  }

  lemma MoveIsSeen()
    ensures ElsewhereUntouched(TwoNodes(A, "exit-1"), MOVE)
  {
    DeployedNodes(0);
    assert !NamedElsewhere(TwoNodes(A, "exit-1"), MOVE);
  }

  lemma RetagIsNamedElsewhere(now: Time)
    ensures NamedElsewhere(Moved(now), RETAG)
  {
    HexNames();
    DeployedNodes(now);
    assert Moved(now).rules[0] in Moved(now).rules;
  }

  lemma ChangedTagIsSeen(st: State, op: Operation, x: Outbound, y: Outbounds.OutboundInput)
    requires op.UpdateOutbound? && OutboundOf(st, op.id) == Some(x) && Outbounds.Normalize(op.outbound) == Ok(y)
    requires x.enabled && y.tag != x.tag && NamedElsewhere(st, op)
    ensures !ElsewhereUntouched(st, op)
  {
  }

  lemma RetagIsSeenElsewhere(now: Time)
    ensures !ElsewhereUntouched(Moved(now), RETAG)
  {
    PlainTags();
    TrimSolid("exit-2");
    MoveIsNormal("exit-2");
    RetagIsNamedElsewhere(now);
    assert "exit-1"[5] != "exit-2"[5];
    var x := Moved(now).outbounds[0];
    assert IndexOf([x], OutboundKey, O) == 0;
    ChangedTagIsSeen(Moved(now), RETAG, x, RETAG.outbound);
  }

  /** The move keeps every node in step, because the rule's node is deployed; the new tag is deployed to the new node
      alone, and the rule's node keeps routing to a tag that no longer exists. See AgreementExact. */
  lemma MoveThenRetag(now: Time)
    ensures Inv(TwoNodes(A, "exit-1")) && Forward(TwoNodes(A, "exit-1"), MOVE, now) == Ok(Moved(now))
    ensures ElsewhereUntouched(TwoNodes(A, "exit-1"), MOVE)
    ensures Forward(Moved(now), RETAG, now).Ok? && !ElsewhereUntouched(Moved(now), RETAG)
  {
    PlainTags();
    TwoNodesHaveIntegrity(A, "exit-1");
    MoveRuns(now);
    MoveIsSeen();
    RetagIsSeenElsewhere(now);
  }

  // ---------- an outbound moves away from its rule, then another takes its tag ----------

  const TAKE := CreateOutbound(P, Outbounds.OutboundInput("other", A, "exit-1", "freedom", "", true), "")

  function TheOther(now: Time): Outbound {
    Outbounds.FromInput(P, TAKE.outbound, "", now)
  }

  function Taken(now: Time): State {
    Moved(now).(outbounds := Moved(now).outbounds + [TheOther(now)])
  }

  lemma TakeIsNormal()
    ensures Outbounds.Normalize(TAKE.outbound) == Ok(TAKE.outbound)
  {
    PlainTags();
    TrimSolid("exit-1");
    TrimSolid("other");
    TrimSolid(A);
    Protocols();
    AlreadyNormal(TAKE.outbound);
  }

  lemma CreateIs(st: State, id: string, y: Outbounds.OutboundInput, n: Outcome<Outbounds.OutboundInput>, now: Time)
    requires Outbounds.Normalize(y) == n && n.Ok?
    ensures Forward(st, CreateOutbound(id, y, ""), now) ==
            Outbounds.Create(st, Outbounds.FromInput(id, n.value, "", now))
  {
    var op := CreateOutbound(id, y, "");
    assert op.CreateOutbound? && op.outbound == y;
  }

  /** Creating a second outbound, on another node than the first. */
  lemma CreateSecond(st: State, x: Outbound, y: Outbound)
    requires st.outbounds == [x] && x.nodeId != y.nodeId
    requires NodeForWork(st, y.nodeId) == None && !Outbounds.Reserved(y.tag)
    ensures Outbounds.Create(st, y) == Ok(st.(outbounds := [x] + [y]))
  {
    assert Outbounds.Clash([x], "", y.name, y.nodeId, y.tag) == None;
  }

  lemma TakeRuns(now: Time)
    ensures Forward(Moved(now), TAKE, now) == Ok(Taken(now))
  {
    HexNames();
    PlainTags();
    TakeIsNormal();
    NodesAtWork(Moved(now));
    CreateIs(Moved(now), P, TAKE.outbound, Ok(TAKE.outbound), now);
    CreateSecond(Moved(now), Moved(now).outbounds[0], TheOther(now));
  }

  lemma TakenHasIntegrity(now: Time)
    ensures Inv(Taken(now))
  {
    PlainTags();
    HexNames();
    TwoNodesHaveIntegrity(A, "exit-1");
    MoveRuns(now);
    Transitions.ForwardKeepsInv(TwoNodes(A, "exit-1"), MOVE, now);
    TakeRuns(now);
    assert OutboundOf(Moved(now), P).None?;
    Transitions.ForwardKeepsInv(Moved(now), TAKE, now);
  }

  /** There is a port for the one probe. */
  lemma OneProbe(st: State, nodeId: string)
    requires |HealthPorts.CandidatesOf(st.outbounds, nodeId)| <= 1 && st.inbounds == []
    ensures HealthPorts.Probes(st, nodeId).Some?
  {
    Sorting.InsertionLength(HealthPorts.CandidatesOf(st.outbounds, nodeId), HealthPorts.ById);
    HealthPorts.FreeExact(HealthPorts.PORT_MIN, HealthPorts.UsedPorts(st.inbounds, nodeId));
    assert HealthPorts.PORT_MIN in HealthPorts.Free(st, nodeId);
  }

  lemma TakenLookups(now: Time)
    ensures OutboundOf(Taken(now), O) == Some(Moved(now).outbounds[0])
    ensures OutboundOf(Taken(now), P) == Some(TheOther(now))
    ensures Xray(Taken(now), A).Some?
  {
    HexNames();
    FindAppend(Moved(now).outbounds, OutboundKey, TheOther(now));
    TakenProbes(now);
  }

  lemma TakenProbes(now: Time)
    ensures HealthPorts.Probes(Taken(now), A).Some?
  {
    HexNames();
    var xs := Taken(now).outbounds;
    assert xs[..1] == Moved(now).outbounds && xs[..1][..0] == [];
    assert HealthPorts.CandidatesOf(xs[..1], A) == [];
    OneProbe(Taken(now), A);
  }

  lemma TakenHit(now: Time, user: string, f: Flow, p: Patterns)
    requires Xray(Taken(now), A).Some?
    ensures var cfg := Xray(Taken(now), A).value;
            FirstMatch(cfg.rules, Traffic(InboundTag(I), user, f), p) == Some(ToOutbound("exit-1"))
    ensures TargetOf(Taken(now), A, ARule([], O, "")) == Some(ToOutbound("exit-1"))
  {
    var st, r, t := Taken(now), ARule([], O, ""), Traffic(InboundTag(I), user, f);
    TakenLookups(now);
    OneRule(st, r);
    HealthRulesTransparent(st, A, Xray(st, A).value.probes, RoutingRules(st, A), t, I, p);
    assert Hits(RuleFor(st, r, ToOutbound("exit-1")), t, p);
  }

  /** Tags are unique on each node only: the outbound that a rule names has moved to another node, and a new outbound of
      the rule's node takes its tag. All three updates are accepted, and the rule's traffic leaves through the new
      outbound. See RuleReaches and StrayTarget. */
  lemma TagTakenOver(now: Time, user: string, f: Flow, p: Patterns)
    ensures Forward(TwoNodes(A, "exit-1"), MOVE, now) == Ok(Moved(now)) &&
            Forward(Moved(now), TAKE, now) == Ok(Taken(now))
    ensures Inv(Taken(now)) && ChoiceOf(ARule([], O, "")) == Via(O) && Xray(Taken(now), A).Some?
    ensures var cfg := Xray(Taken(now), A).value;
            var hit := FirstMatch(cfg.rules, Traffic(InboundTag(I), user, f), p);
            hit.Some? && Reaches(Taken(now), A, cfg, hit.value, Via(P)) &&
                !Reaches(Taken(now), A, cfg, hit.value, Via(O))
  {
    MoveRuns(now);
    TakeRuns(now);
    TakenHasIntegrity(now);
    TakenLookups(now);
    TakenHit(now, user, f, p);
    HexNames();
    var cfg := Xray(Taken(now), A).value;
    TagReaches(Taken(now), A, cfg, "exit-1", P);
    TagReaches(Taken(now), A, cfg, "exit-1", O);
  }

  // ---------- a group member becomes a blackhole ----------

  const THE_GROUP := Group(G, "pool", A, "random", [Member(O, 0, 1)], "blocked", 1, true, 1, 1)

  const BALANCED := EMPTY.(nodes := [ANode(A)], outbounds := [AnOutbound(A, "exit-1", "freedom")],
      groups := [THE_GROUP],
                           rules := [ARule([], "", G)])

  const SINK := UpdateOutbound(O, Outbounds.OutboundInput("exit", A, "exit-1", "blackhole", "", true), "")

  lemma BalancedHasIntegrity()
    ensures Inv(BALANCED)
  {
    HexNames();
    PlainTags();
    assert BALANCED.nodes[0].id == A && A in NodeIds(BALANCED);
    assert Available(BALANCED.outbounds, A, O);
    assert THE_GROUP.members[0].outboundId == O;
    assert GroupOk(THE_GROUP, NodeIds(BALANCED), BALANCED.outbounds);
    assert RuleFits(BALANCED, BALANCED.rules[0]);
  }

  lemma SinkIsNormal()
    ensures Outbounds.Normalize(SINK.outbound) == Ok(SINK.outbound)
  {
    PlainTags();
    TrimSolid("exit-1");
    TrimSolid(A);
    Protocols();
    ExitIsNormal(A, "exit-1", "blackhole");
  }

  function Sunk(now: Time): State {
    BALANCED.(outbounds := [Outbounds.Apply(BALANCED.outbounds[0], SINK.outbound, "", now)])
  }

  lemma SinkRuns(now: Time)
    ensures Forward(BALANCED, SINK, now) == Ok(Sunk(now))
  {
    PlainTags();
    SinkIsNormal();
    assert NodeForWork(BALANCED, A) == None;
    assert Groups.ReferenceChange(BALANCED.groups, O, A, true) == None;
    UpdateTheOnly(BALANCED, BALANCED.outbounds[0], SINK.outbound, now);
  }

  /** The update is accepted, and the rule's balancer is gone from the configuration. See BalancerEmitted. */
  lemma BlackholeMember(now: Time)
    ensures Inv(BALANCED) && Forward(BALANCED, SINK, now) == Ok(Sunk(now))
    ensures TargetOf(Sunk(now), A, ARule([], "", G)) == Some(ToBalancer(BalancerTag(G)))
    ensures Compiler.Balancers(Sunk(now), Filter(Sunk(now).groups, GroupOn(A))) == []
  {
    BalancedHasIntegrity();
    SinkRuns(now);
    var st := Sunk(now);
    assert Groups.MemberError(st, THE_GROUP, O) == Some(MemberBlackhole);
    assert Groups.Validate(st, THE_GROUP).Some? by { assert THE_GROUP.members[0] in THE_GROUP.members; }
    assert Filter(st.groups, GroupOn(A)) == [THE_GROUP];
  }

  // ---------- users ----------

  /** A user with a quota that is used up to the given bytes, all of it counted by the proxy. */
  function AUser(id: string, name: string, status: string, limit: int, used: int): User {
    User(id, name, status, "", "", 0, limit, used, used, 0, 1, 1, 0, 10, false, 0, 0, 0)
  }

  const ANN := AUser(U, "ann", "active", 0, 0)
  const BEA := AUser(V, "bea", "active", 0, 0)
  const CLAIRE := AUser(U, "claire", "active", 0, 0)

  const ENTRY := Inbound(I, "entry", "vless", A, "0.0.0.0", 443, "tcp", "none", true, "online", "", "", "", 1, 1)

  const ANNS := Client(G, I, U, "gb:ann", "", true)
  const BEAS := Client(R, I, V, "gb:bea", "", true)

  /** One node, one inbound, two users bound to it, and a rule that blocks the first. */
  const OFFICE := EMPTY.(nodes := [ANode(A)], users := [ANN, BEA], inbounds := [ENTRY], clients := [ANNS, BEAS],
                         rules := [ARule([U], "blocked", "")])

  lemma OfficeHasIntegrity()
    ensures Inv(OFFICE)
  {
    HexNames();
    assert OFFICE.nodes[0].id == A && A in NodeIds(OFFICE);
    assert OFFICE.users[0].id == U && OFFICE.users[1].id == V && U in UserIds(OFFICE) && V in UserIds(OFFICE);
    assert OFFICE.inbounds[0].id == I && I in InboundIds(OFFICE);
    assert ANN.username[0] != BEA.username[0];
    assert RuleFits(OFFICE, OFFICE.rules[0]);
  }

  lemma OneRuleChooses(st: State, r: Rule, q: Request, p: Patterns)
    requires st.rules == [r]
    ensures Chooses(st, A, q, p, if Applies(A, q, p)(r) then Some(ChoiceOf(r)) else None)
  {
    var a := Applies(A, q, p);
    assert Filter([r], a) == if a(r) then [r] else [];
    assert Sorting.FirstLeast([r], ByPriority, 0);
  }

  /** A rule blocks one user; deleting that user makes it block everybody. See DeletionWidens and
      DeletionKeepsOthers. */
  lemma DeletingBlocksOthers(f: Flow, p: Patterns)
    ensures Inv(OFFICE) && BEAS in OFFICE.clients && DeleteUser(OFFICE, U).Ok?
    ensures Chooses(OFFICE, A, Request(BEAS.inboundId, BEAS.userId, f), p, None)
    ensures Chooses(DeleteUser(OFFICE, U).value, A, Request(BEAS.inboundId, BEAS.userId, f), p, Some(Blocked))
  {
    HexNames();
    OfficeHasIntegrity();
    assert Filter([U], NotString(U)) == [];
    var st, q := DeleteUser(OFFICE, U).value, Request(I, V, f);
    assert st.rules == [ARule([], "blocked", "")];
    OneRuleChooses(OFFICE, ARule([U], "blocked", ""), q, p);
    OneRuleChooses(st, ARule([], "blocked", ""), q, p);
  }

  const RENAMED := OFFICE.(users := [CLAIRE, BEA])

  lemma RenameRuns()
    ensures EditUser(OFFICE, U, CLAIRE) == Ok(RENAMED)
  {
    HexNames();
    TrimSolid("claire");
    LowerPlain("claire");
    assert IndexOf([ANN, BEA], UserKey, U) == 0;
    assert "claire"[0] != "bea"[0];
    assert !UsernameTaken(OFFICE, U, "claire");
    assert Replace([ANN, BEA], UserKey, U, CLAIRE) == [CLAIRE, BEA];
  }

  lemma FirstUsers()
    ensures UserOf(OFFICE, U) == Some(ANN) && UserOf(RENAMED, U) == Some(CLAIRE)
  {
    assert IndexOf([ANN, BEA], UserKey, U) == 0 && IndexOf([CLAIRE, BEA], UserKey, U) == 0;
  }

  lemma OneUserRule(st: State, u: User, f: Flow, p: Patterns)
    requires UserOf(st, U) == Some(u) && st.rules == [ARule([U], "blocked", "")]
    ensures FirstMatch(RoutingRules(st, A), SeenThrough(ANNS, f), p) ==
            if "gb:ann" == UserLabel(u.username) then Some(ToOutbound("blocked")) else None
  {
    var r := ARule([U], "blocked", "");
    OneRule(st, r);
    assert UserLabels(st, [U]) == [UserLabel(u.username)] by { assert [U][1..] == []; }
    assert Hits(RuleFor(st, r, ToOutbound("blocked")), SeenThrough(ANNS, f), p) <==> "gb:ann" == UserLabel(u.username);
  }

  lemma LabelsDiffer()
    ensures UserLabel(ANN.username) == "gb:ann" && UserLabel(CLAIRE.username) != "gb:ann"
  {
    assert "gb:" + "ann" == "gb:ann" && "gb:" + "claire" == "gb:claire";
    assert "gb:ann"[3] != "gb:claire"[3];
  }

  lemma CaughtBefore(f: Flow, p: Patterns)
    ensures FirstMatch(RoutingRules(OFFICE, A), SeenThrough(ANNS, f), p) == Some(ToOutbound("blocked"))
  {
    FirstUsers();
    LabelsDiffer();
    OneUserRule(OFFICE, ANN, f, p);
  }

  lemma MissedAfter(f: Flow, p: Patterns)
    ensures FirstMatch(RoutingRules(RENAMED, A), SeenThrough(ANNS, f), p) == None
  {
    FirstUsers();
    LabelsDiffer();
    OneUserRule(RENAMED, CLAIRE, f, p);
  }

  /** The label in a binding outlives the name: after a rename the rule no longer catches the user's traffic. See
      RenameAndLabels and BindingRouted. */
  lemma RenamingEscapesRule(f: Flow, p: Patterns)
    ensures Inv(OFFICE) && ANNS in OFFICE.clients && EditUser(OFFICE, U, CLAIRE) == Ok(RENAMED)
    ensures FirstMatch(RoutingRules(OFFICE, A), SeenThrough(ANNS, f), p) == Some(ToOutbound("blocked"))
    ensures FirstMatch(RoutingRules(RENAMED, A), SeenThrough(ANNS, f), p) == None
  {
    OfficeHasIntegrity();
    RenameRuns();
    CaughtBefore(f, p);
    MissedAfter(f, p);
  }

  lemma OneRule(st: State, r: Rule)
    requires st.rules == [r] && r.nodeId == A && r.enabled && TargetOf(st, A, r).Some?
    ensures RoutingRules(st, A) == [RuleFor(st, r, TargetOf(st, A, r).value)]
  {
    var t := TargetOf(st, A, r).value;
    assert [r][1..] == [];
    assert CompileRule(st, A, r) == [RuleFor(st, r, t)];
    assert CompileRules(st, A, [r]) == [RuleFor(st, r, t)];
    assert Sorting.StableSort([r], ByPriority) == [r];
    assert Filter([r], RuleOn(A)) == [r];
  }

  // ---------- a disabled user comes back ----------

  const CAROL := AUser(U, "carol", "disabled", 100, 100)
  const HOME := EMPTY.(users := [CAROL])

  lemma HomeHasIntegrity()
    ensures Inv(HOME)
  {
    HexNames();
  }

  /** Disabled by hand with the quota used up: enforcement relabels the user, the next reconciling pass respells the
      label, and the one after the daily reset activates her. See DisabledKept and DisabledRevived. */
  lemma DisabledComesBack()
    ensures Inv(HOME)
    ensures var u := Accounting.EnforceUser(HOME, CAROL, 5);
            && u.status == "quota-exceeded"
            && Subscriptions.Schedulable(HOME, u, 6)
            && var v := Subscriptions.ReconcileUser(HOME, u, 6);
            && v.status == "quota_exceeded"
            && Subscriptions.Schedulable(HOME, v, 20)
            && Subscriptions.ReconcileUser(HOME, v, 20).status == "active"
  {
    HomeHasIntegrity();
    Subscriptions.StepExact(1);
    Subscriptions.NormalizeFixed();
  }

  // ---------- a raised quota ----------

  /** The quota of 100 was used up through one peer; then it was raised to 150. */
  const DAN := AUser(U, "dan", "quota-exceeded", 150, 0).(used := 100, wireguardBytes := 100)
  const DANS := Peer(R, U, A, "wg0", "10.0.0.2/32", "key", "", "", false, 100, 0, 0, 0)
  const SHOP := EMPTY.(nodes := [ANode(A)], users := [DAN], peers := [DANS])

  lemma ShopHasIntegrity()
    ensures Inv(SHOP)
  {
    HexNames();
    assert SHOP.nodes[0].id == A && A in NodeIds(SHOP);
    assert SHOP.users[0].id == U && U in UserIds(SHOP);
  }

  /** Enforcement activates the user and re-enables the peer, and when the agent accepts, the hundred bytes are
      forgotten: the user has the whole raised quota again. See ReenablingForgets. */
  lemma RaisedQuotaForgets()
    ensures Inv(SHOP) && Accounting.UserBytes(SHOP.peers, U) == 100 == DAN.wireguardBytes
    ensures var users := Accounting.EnforceUsers(SHOP, SHOP.users, 5);
            var tasks := Accounting.Flips(users, SHOP.peers);
            && users[0].status == "active" && tasks == [DANS.(enabled := true)]
            && Accounting.UserBytes(Accounting.PushedAll([DANS.(enabled := true)], tasks, (k: nat) => true), U) == 0
  {
    ShopHasIntegrity();
    var u := Accounting.EnforceUser(SHOP, DAN, 5);
    var users := Accounting.EnforceUsers(SHOP, SHOP.users, 5);
    assert users == [u] && u.status == "active";
    var p, z := DANS.(enabled := true), DANS.(enabled := true, rx := 0);
    assert [DANS][..0] == [] && [p][..0] == [] && [z][..0] == [];
    assert Accounting.SetPeer(users, DANS) == p;
    assert Accounting.Pushed([p], p, true) == [z];
  }
}
