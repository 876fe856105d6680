/** User labels in bindings and rules: when a stored rule and the proxy speak of the same user. */
module Labels {
  import opened Wrappers
  import opened Lists
  import opened Text
  import opened Entities
  import opened Compiler
  import opened Integrity
  import opened RoutingMeaning
  import opened Admin
  import Rules
  import Sorting

  /** The label in every binding is that of the user's present name. */
  ghost predicate LabelsInStep(st: State) {
    forall c | c in st.clients && UserOf(st, c.userId).Some? ::
        c.email == UserLabel(UserOf(st, c.userId).value.username)
  }

  /** What the proxy sees of a request that comes in through a binding. */
  function SeenThrough(c: Client, flow: Flow): Traffic {
    Traffic(InboundTag(c.inboundId), c.email, flow)
  }

  lemma IntegrityGivesNames(st: State)
    requires Inv(st)
    ensures UsernamesDistinct(st)
    ensures forall n :: UsersResolve(st, n)
  {
    forall a, b | UserOf(st, a).Some? && UserOf(st, b).Some? &&
        UserOf(st, a).value.username == UserOf(st, b).value.username
      ensures a == b
    {
      assert UserOf(st, a).value in st.users && UserOf(st, b).value in st.users;
    }
    forall r | r in st.rules ensures Rules.UsersExist(st, r.userIds) {
      assert RuleFits(st, r);
      forall id | id in r.userIds ensures UserOf(st, id).Some? { IdsFind(st.users, UserKey, id); }
    }
  }

  /** Attaching a user writes the label in step. */
  lemma AttachKeepsLabels(st: State, id: string, inboundId: string, userId: string, credentialEnc: string)
    requires LabelsInStep(st) && Attach(st, id, inboundId, userId, credentialEnc).Ok?
    ensures LabelsInStep(Attach(st, id, inboundId, userId, credentialEnc).value)
  {
  }

  /** Editing a user keeps the labels in step exactly when the name stays or the user has no binding. */
  lemma RenameAndLabels(st: State, id: string, y: User)
    requires Inv(st) && LabelsInStep(st) && EditUser(st, id, y).Ok?
    ensures LabelsInStep(EditUser(st, id, y).value) <==>
            (Trim(y.username) == "" || Fold(y.username) == UserOf(st, id).value.username ||
             forall c | c in st.clients :: c.userId != id)
  {
    var u, next := UserOf(st, id).value, EditUser(st, id, y).value;
    var name := if Trim(y.username) != "" then Fold(y.username) else u.username;
    var v := y.(id := id, username := name, planId := if y.planId != "" then y.planId else u.planId);
    FindReplace(st.users, UserKey, id, v);
    assert UserLabel(name)[3..] == name && UserLabel(u.username)[3..] == u.username;
  }

  // ---------- deleting a user ----------

  predicate NamesOnly(r: Rule, userId: string) {
    r.userIds != [] && forall x | x in r.userIds :: x == userId
  }

  predicate MatchesForAnyUser(r: Rule, q: Request, p: Patterns) {
    (r.inboundIds == [] || q.inboundId in r.inboundIds) && Accepts(r.matcher, q.flow, p)
  }

  /** Deleting a user changes what a rule does to somebody else's traffic exactly when the rule named that user and
      nobody else, and its other conditions hold: the emptied list then matches everyone. */
  lemma DeletionWidens(r: Rule, userId: string, q: Request, p: Patterns)
    requires q.userId != userId
    ensures Matches(ForgetUser(r, userId), q, p) != Matches(r, q, p) <==>
            NamesOnly(r, userId) && MatchesForAnyUser(r, q, p)
  {
    FilterMembers(r.userIds, NotString(userId));
    if r.userIds != [] && !NamesOnly(r, userId) {
      var x :| x in r.userIds && x != userId;
      assert x in Filter(r.userIds, NotString(userId));
    }
    var left := Filter(r.userIds, NotString(userId));
    assert left == [] || left[0] in left;
  }

  /** A rule of the node that keeps its target and its matcher stays eligible or not. */
  lemma EligibleKept(st: State, st': State, r: Rule, nodeId: string, userId: string, q: Request, p: Patterns)
    requires q.userId != userId && st'.groups == st.groups && st'.outbounds == st.outbounds
    requires r.nodeId == nodeId && r.enabled ==> !NamesOnly(r, userId)
    ensures Eligible(st', nodeId, q, p)(ForgetUser(r, userId)) == Eligible(st, nodeId, q, p)(r)
    ensures TargetOf(st', nodeId, ForgetUser(r, userId)) == TargetOf(st, nodeId, r)
  {
    DeletionWidens(r, userId, q, p);
  }

  lemma {:induction false} ForgetFilter(rs: seq<Rule>, userId: string, p: Rule -> bool, p': Rule -> bool)
    requires forall r | r in rs :: p'(ForgetUser(r, userId)) == p(r)
    ensures Filter(ForgetUserAll(rs, userId), p') == ForgetUserAll(Filter(rs, p), userId)
  {
    if rs != [] {
      var r, tail := rs[0], rs[1..];
      assert r in rs && forall x | x in tail :: x in rs;
      ForgetFilter(tail, userId, p, p');
      assert ForgetUserAll(rs, userId)[1..] == ForgetUserAll(tail, userId);
      assert ForgetUserAll(rs, userId)[0] == ForgetUser(r, userId);
      if p(r) {
        assert ([r] + Filter(tail, p))[1..] == Filter(tail, p);
      } else {
        assert Filter(rs, p) == Filter(tail, p);
      }
    }
  }

  /** The eligible rules after the deletion are the eligible rules before it, without the user. */
  lemma ForgetEligible(st: State, st': State, nodeId: string, userId: string, q: Request, p: Patterns)
    requires q.userId != userId && st'.groups == st.groups && st'.outbounds == st.outbounds
    requires forall r | r in st.rules && r.nodeId == nodeId && r.enabled :: !NamesOnly(r, userId)
    ensures Filter(ForgetUserAll(st.rules, userId), Eligible(st', nodeId, q, p)) ==
            ForgetUserAll(Filter(st.rules, Eligible(st, nodeId, q, p)), userId)
  {
    var e, e' := Eligible(st, nodeId, q, p), Eligible(st', nodeId, q, p);
    forall r | r in st.rules ensures e'(ForgetUser(r, userId)) == e(r) {
      EligibleKept(st, st', r, nodeId, userId, q, p);
    }
    ForgetFilter(st.rules, userId, e, e');
  }

  /** Which position is first and least depends on the comparisons alone. */
  lemma SameOrder<T>(xs: seq<T>, ys: seq<T>, le: (T, T) -> bool, i: nat)
    requires |xs| == |ys|
    requires forall a, b | 0 <= a < |xs| && 0 <= b < |xs| :: le(xs[a], xs[b]) == le(ys[a], ys[b])
    ensures Sorting.FirstLeast(xs, le, i) <==> Sorting.FirstLeast(ys, le, i)
  {
  }

  lemma ForgetFirstLeast(rs: seq<Rule>, userId: string, i: nat)
    ensures Sorting.FirstLeast(ForgetUserAll(rs, userId), ByPriority, i) <==> Sorting.FirstLeast(rs, ByPriority, i)
  {
    var fs := ForgetUserAll(rs, userId);
    forall a, b | 0 <= a < |rs| && 0 <= b < |rs| ensures ByPriority(rs[a], rs[b]) == ByPriority(fs[a], fs[b]) {
      assert fs[a] == ForgetUser(rs[a], userId) && fs[b] == ForgetUser(rs[b], userId);
    }
    SameOrder(rs, fs, ByPriority, i);
  }

  /** Without a rule of that kind on the node, deleting a user reroutes nobody else. */
  lemma DeletionKeepsOthers(st: State, nodeId: string, userId: string, q: Request, p: Patterns, target: Option<Target>)
    requires DeleteUser(st, userId).Ok? && q.userId != userId
    requires forall r | r in st.rules && r.nodeId == nodeId && r.enabled :: !NamesOnly(r, userId)
    requires Decides(st, nodeId, q, p, target)
    ensures Decides(DeleteUser(st, userId).value, nodeId, q, p, target)
  {
    var st' := DeleteUser(st, userId).value;
    ForgetEligible(st, st', nodeId, userId, q, p);
    var rs := Filter(st.rules, Eligible(st, nodeId, q, p));
    if rs != [] {
      var i: nat :| Sorting.FirstLeast(rs, ByPriority, i) && target == TargetOf(st, nodeId, rs[i]);
      ForgetFirstLeast(rs, userId, i);
      FilterMembers(st.rules, Eligible(st, nodeId, q, p));
      assert rs[i] in rs;
      EligibleKept(st, st', rs[i], nodeId, userId, q, p);
    }
  }
}
