/** Every closure of a deploying transaction keeps the integrity invariant. */
module Transitions {
  import opened Wrappers
  import opened Lists
  import opened Sorting
  import opened Text
  import opened Entities
  import Inbounds
  import Outbounds
  import Groups
  import Rules
  import opened Operations
  import opened Integrity

  lemma NodeForWorkExists(st: State, id: string)
    requires NodeForWork(st, id).None?
    ensures id in NodeIds(st)
  {
    IdsFind(st.nodes, NodeKey, id);
  }

  // ---------- inbounds ----------

  lemma InboundCreated(st: State, y: Inbound)
    requires Inv(st) && InboundOf(st, y.id).None? && HexId(y.id) && Inbounds.Create(st, y).Ok?
    ensures Inv(Inbounds.Create(st, y).value)
  {
    NodeForWorkExists(st, y.nodeId);
    AppendInbound(st, y);
  }

  lemma InboundUpdated(st: State, id: string, y: Inbounds.InboundInput, now: Time)
    requires Inv(st) && Inbounds.Update(st, id, y, now).Ok?
    ensures Inv(Inbounds.Update(st, id, y, now).value)
  {
    NodeForWorkExists(st, y.nodeId);
    PutInbound(st, id, Inbounds.Apply(InboundOf(st, id).value, y, now));
  }

  lemma InboundEnabled(st: State, id: string, on: bool, now: Time)
    requires Inv(st) && Inbounds.SetEnabled(st, id, on, now).Ok?
    ensures Inv(Inbounds.SetEnabled(st, id, on, now).value)
  {
    var x := InboundOf(st, id).value;
    PutInbound(st, id, x.(enabled := on, status := if on then "configured" else "disabled", updatedAt := now));
  }

  // ---------- outbounds ----------

  lemma OutboundCreated(st: State, y: Outbound)
    requires Inv(st) && OutboundOf(st, y.id).None? && HexId(y.id) && Outbounds.ValidTag(y.tag)
    requires Outbounds.Create(st, y).Ok?
    ensures Inv(Outbounds.Create(st, y).value)
  {
    NodeForWorkExists(st, y.nodeId);
    forall x | x in st.outbounds ensures OutboundsApart(x, y) && OutboundsApart(y, x) {
      assert HexId(x.id);
    }
    AppendOutbound(st, y);
  }

  lemma OutboundUpdated(st: State, id: string, y: Outbounds.OutboundInput, secret: string, now: Time)
    requires Inv(st) && Outbounds.ValidTag(y.tag) && Outbounds.Update(st, id, y, secret, now).Ok?
    ensures Inv(Outbounds.Update(st, id, y, secret, now).value)
  {
    NodeForWorkExists(st, y.nodeId);
    PutOutbound(st, id, Outbounds.Apply(OutboundOf(st, id).value, y, secret, now));
  }

  lemma OutboundEnabled(st: State, id: string, on: bool, now: Time)
    requires Inv(st) && Outbounds.SetEnabled(st, id, on, now).Ok?
    ensures Inv(Outbounds.SetEnabled(st, id, on, now).value)
  {
    var x := OutboundOf(st, id).value;
    if on {
      forall g | g in st.groups && Groups.References(g, id) ensures g.nodeId == x.nodeId {
        ReferencesAreLocal(st, g, id);
      }
    }
    PutOutbound(st, id, x.(enabled := on, updatedAt := now));
  }

  /** A group reaches only outbounds of its own node. */
  lemma ReferencesAreLocal(st: State, g: Group, id: string)
    requires Inv(st) && g in st.groups && Groups.References(g, id) && OutboundOf(st, id).Some?
    ensures g.nodeId == OutboundOf(st, id).value.nodeId
  {
    assert GroupOk(g, NodeIds(st), st.outbounds);
    var o := OutboundOf(st, id).value;
    if !Groups.HasMember(g, id) {
      assert g.fallback == id && HexId(o.id);
      assert !Groups.BuiltIn(id);
    }
  }

  lemma OutboundDeleted(st: State, id: string)
    requires Inv(st) && Outbounds.Delete(st, id).Ok?
    ensures Inv(Outbounds.Delete(st, id).value)
  {
    DropOutbound(st, id);
  }

  // ---------- groups ----------

  /** A member as it is stored: identifier trimmed, a missing weight counts as one. */
  function TidyMember(m: Member): Member {
    Member(Trim(m.outboundId), m.priority, if m.weight == 0 then 1 else m.weight)
  }

  lemma {:induction false} NormalizedMemberAt(ms: seq<Member>, seen: set<string>, i: nat)
    requires i < |ms| && Groups.NormalizeMembers(ms, seen).Ok?
    ensures Groups.NormalizeMembers(ms, seen).value[i] == TidyMember(ms[i])
  {
    if i > 0 { NormalizedMemberAt(ms[1..], seen + {Trim(ms[0].outboundId)}, i - 1); }
  }

  lemma MembersPreorder()
    ensures TotalPreorder(Groups.MemberLe)
  {
    forall x, y ensures Groups.MemberLe(x, y) || Groups.MemberLe(y, x) { LexTotal(x.outboundId, y.outboundId); }
    forall x, y, z | Groups.MemberLe(x, y) && Groups.MemberLe(y, z) ensures Groups.MemberLe(x, z) {
      if x.priority == y.priority == z.priority { LexTransitive(x.outboundId, y.outboundId, z.outboundId); }
    }
  }

  lemma NormalizedMembers(raw: Group, g: Group)
    requires Groups.Normalize(raw) == Ok(g)
    ensures Unique(g.members, MemberKey) && 1 <= |g.members| <= 32 && 1 <= g.expected <= |g.members|
    ensures Groups.ValidStrategy(g.strategy) && g.name != "" && g.nodeId == Trim(raw.nodeId) != ""
    ensures forall m | m in g.members :: m.outboundId != "" && 0 <= m.priority <= 1000 && 1 <= m.weight <= 100
    ensures |g.members| == |raw.members| && forall m | m in raw.members :: TidyMember(m) in g.members
    ensures Sorted(g.members, Groups.MemberLe)
  {
    var ms := Groups.NormalizeMembers(raw.members, {}).value;
    SortUnique(ms, Groups.MemberLe, MemberKey);
    MembersPreorder();
    SortCorrect(ms, Groups.MemberLe);
    forall m | m in raw.members ensures TidyMember(m) in g.members {
      var i :| 0 <= i < |raw.members| && raw.members[i] == m;
      NormalizedMemberAt(raw.members, {}, i);
      assert ms[i] in multiset(g.members);
    }
    assert |multiset(g.members)| == |g.members| && |multiset(ms)| == |ms|;
    forall m | m in g.members ensures m.outboundId != "" && 0 <= m.priority <= 1000 && 1 <= m.weight <= 100 {
      assert m in multiset(ms);
    }
  }

  lemma ValidGroupFits(st: State, g: Group)
    requires Inv(st) && HexId(g.id) && Unique(g.members, MemberKey) && Groups.Validate(st, g).None?
    ensures GroupOk(g, NodeIds(st), st.outbounds)
    ensures forall x | x in st.groups && x.id != g.id :: GroupsApart(x, g) && GroupsApart(g, x)
  {
    NodeForWorkExists(st, g.nodeId);
    forall m | m in g.members ensures Available(st.outbounds, g.nodeId, m.outboundId) {
      assert Groups.MemberError(st, g, m.outboundId).None?;
    }
  }

  lemma GroupCreated(st: State, g: Group)
    requires Inv(st) && GroupOf(st, g.id).None? && HexId(g.id) && Unique(g.members, MemberKey)
    requires Groups.Create(st, g).Ok?
    ensures Inv(Groups.Create(st, g).value)
  {
    ValidGroupFits(st, g);
    AppendGroup(st, g);
  }

  lemma GroupUpdated(st: State, id: string, y: Group, now: Time)
    requires Inv(st) && Unique(y.members, MemberKey) && Groups.Update(st, id, y, now).Ok?
    ensures Inv(Groups.Update(st, id, y, now).value)
  {
    var x := GroupOf(st, id).value;
    var g := y.(id := x.id, createdAt := x.createdAt, updatedAt := now);
    assert HexId(x.id) by { assert GroupOk(x, NodeIds(st), st.outbounds); }
    ValidGroupFits(st, g);
    forall r | r in st.rules && r.groupId == id ensures r.nodeId == g.nodeId && (r.enabled ==> g.enabled) {
      assert RuleFits(st, r);
    }
    PutGroup(st, id, g);
  }

  // ---------- rules ----------

  lemma ValidRuleFits(st: State, raw: Rule, r: Rule, y: Rule)
    requires Inv(st) && Rules.Normalize(raw) == Ok(y)
    requires r == y.(id := r.id, enabled := r.enabled, createdAt := r.createdAt, updatedAt := r.updatedAt)
    requires Rules.Validate(st, r).None?
    ensures RuleFits(st, r)
  {
    IdsFind(st.nodes, NodeKey, r.nodeId);
    IdsFind(st.outbounds, OutboundKey, r.outboundId);
    forall id | id in r.userIds ensures id in UserIds(st) { IdsFind(st.users, UserKey, id); }
  }

  // ---------- all fourteen ----------

  /** A committed first update keeps the invariant. */
  lemma ForwardKeepsInv(st: State, op: Operation, now: Time)
    requires Inv(st) && Fresh(st, op) && Forward(st, op, now).Ok?
    ensures Inv(Forward(st, op, now).value)
  {
    match op
    case CreateInbound(id, x) => InboundCreated(st, Inbounds.FromInput(id, Inbounds.Normalize(x).value, now));
    case UpdateInbound(id, x) => InboundUpdated(st, id, Inbounds.Normalize(x).value, now);
    case EnableInbound(id, on) => InboundEnabled(st, id, on, now);
    case DeleteInbound(id) => DropInbound(st, id);
    case CreateOutbound(id, x, secret) =>
      OutboundCreated(st, Outbounds.FromInput(id, Outbounds.Normalize(x).value, secret, now));
    case UpdateOutbound(id, x, secret) => OutboundUpdated(st, id, Outbounds.Normalize(x).value, secret, now);
    case EnableOutbound(id, on) => OutboundEnabled(st, id, on, now);
    case DeleteOutbound(id) => OutboundDeleted(st, id);
    case CreateGroup(id, x) =>
      var y := Groups.Normalize(x).value;
      NormalizedMembers(x, y);
      GroupCreated(st, y.(id := id, enabled := true, createdAt := now, updatedAt := now));
    case UpdateGroup(id, x) =>
      NormalizedMembers(x, Groups.Normalize(x).value);
      GroupUpdated(st, id, Groups.Normalize(x).value, now);
    case DeleteGroup(id) => DropGroup(st, id);
    case CreateRule(id, x) =>
      var y := Rules.Normalize(x).value;
      var r := y.(id := id, enabled := true, createdAt := now, updatedAt := now);
      ValidRuleFits(st, x, r, y);
      AppendRule(st, r);
    case UpdateRule(id, x) =>
      var y := Rules.Normalize(x).value;
      var was := RuleOf(st, id).value;
      var r := y.(id := was.id, createdAt := was.createdAt, updatedAt := now);
      ValidRuleFits(st, x, r, y);
      PutRule(st, id, r);
    case DeleteRule(id) => DropRule(st, id);
  }
}
