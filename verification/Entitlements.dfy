/** Which limit counts: a user's own, else the plan's, else none. Stated over what the passes do to users. */
module Entitlements {
  import opened Wrappers
  import opened Lists
  import opened Text
  import opened Entities
  import opened Subscriptions
  import opened Accounting
  import opened AccountingLaws
  import Admin

  /** The user has a plan that exists. */
  ghost predicate OnPlan(st: State, u: User, p: Plan) {
    p in st.plans && p.id == u.planId
  }

  ghost predicate NoPlan(st: State, u: User) {
    forall p | p in st.plans :: p.id != u.planId
  }

  lemma PlanFound(st: State, u: User)
    requires Unique(st.plans, PlanKey)
    ensures forall p :: OnPlan(st, u, p) <==> PlanOf(st, u.planId) == Some(p)
    ensures NoPlan(st, u) <==> PlanOf(st, u.planId) == None
  {
    forall p | OnPlan(st, u, p) ensures PlanOf(st, u.planId) == Some(p) { UniqueIn(st.plans, PlanKey, p); }
  }

  // ---------- data limits ----------

  /** The number of bytes at which the user is over quota, if there is one. */
  ghost predicate OverQuota(st: State, u: User, bytes: int) {
    || (u.dataLimit > 0 && bytes >= u.dataLimit)
    || (u.dataLimit <= 0 && exists p :: OnPlan(st, u, p) && p.dataLimit > 0 && bytes >= p.dataLimit)
  }

  lemma LimitDecides(st: State, u: User, bytes: int)
    requires Unique(st.plans, PlanKey)
    ensures EffectiveUserLimit(st, u) > 0 && bytes >= EffectiveUserLimit(st, u) <==> OverQuota(st, u, bytes)
  {
    PlanFound(st, u);
  }

  /** Main result for enforcement: the whole record. The quota status follows when the bytes reach the user's own limit
      if there is one, else the plan's if there is one. */
  lemma EnforcedExact(st: State, u: User, now: Time)
    requires Unique(st.plans, PlanKey)
    ensures var v, bytes := EnforceUser(st, u, now), u.wireguardBytes + u.xrayBytes;
            && v == u.(used := bytes, status := v.status,
                       updatedAt := if v.status != u.status then now else u.updatedAt)
            && v.status == if u.expiresAt != 0 && u.expiresAt < now then "expired"
                           else if OverQuota(st, u, bytes) then "quota-exceeded"
                           else if u.status == "quota-exceeded" then "active"
                           else u.status
  {
    var bytes := u.wireguardBytes + u.xrayBytes;
    LimitDecides(st, u, bytes);
    SamePlansSameLimits(st, st, u, u.(used := bytes));
  }

  /** Main result for reconciling, over the bytes it leaves: likewise for a user neither disabled nor expired. */
  lemma ReconciledQuota(st: State, u: User, now: Time)
    requires Unique(st.plans, PlanKey) && Schedulable(st, u, now)
    requires u.expiresAt == 0 || now < u.expiresAt
    requires Fold(u.status) != "disabled"
    ensures var v := ReconcileUser(st, u, now);
            && (v.status == "quota_exceeded" <==> OverQuota(st, v, v.used))
            && (v.status == "active" <==> !OverQuota(st, v, v.used))
  {
    var v, a := ReconcileUser(st, u, now), AfterReset(st, u, now);
    LimitDecides(st, v, v.used);
    SamePlansSameLimits(st, st, a, v);
    NormalizeFixed();
    DecidedStatus(st, u, now);
  }

  lemma DecidedStatus(st: State, u: User, now: Time)
    requires Schedulable(st, u, now)
    ensures ReconcileUser(st, u, now).status == Lifecycle(st, AfterReset(st, u, now), now).0
  {
  }

  /** The three outcomes before the quota, in order. */
  lemma ReconciledOtherwise(st: State, u: User, now: Time)
    requires Schedulable(st, u, now)
    ensures Fold(u.status) == "disabled" ==> ReconcileUser(st, u, now).status == "disabled"
    ensures Fold(u.status) != "disabled" && u.expiresAt != 0 && now >= u.expiresAt ==>
              ReconcileUser(st, u, now).status == "expired"
  {
    DecidedStatus(st, u, now);
    NormalizeFixed();
  }

  /** Everything else in the record: the time stamp moves exactly when something changed, and the reason follows the
      status. */
  lemma ReconciledRest(st: State, u: User, now: Time)
    requires Schedulable(st, u, now)
    ensures var v := ReconcileUser(st, u, now);
            && v == u.(status := v.status, statusReason := v.statusReason, used := v.used, xrayBytes := v.xrayBytes,
                       wireguardBytes := v.wireguardBytes, lastResetAt := v.lastResetAt, nextResetAt := v.nextResetAt,
                       updatedAt := v.updatedAt)
            && (Changes(st, u, now) <==> v.(updatedAt := u.updatedAt) != u)
            && v.updatedAt == (if v.(updatedAt := u.updatedAt) != u then now else u.updatedAt)
            && v.statusReason == (if v.status == "disabled" then "manually disabled"
                                  else if v.status == "expired" then "subscription expired"
                                  else if v.status == "quota_exceeded" then "traffic quota exceeded" else "")
  {
  }

  /** Main result: reconciling names the nodes of the inbounds that the users with a changed record are bound to. */
  lemma ReconciledNodes(st: State, next: seq<User>, now: Time, n: string)
    requires AllSchedulable(st, now) && Unique(st.inbounds, InboundKey) && |next| == |st.users|
    requires forall i | 0 <= i < |next| :: next[i] == ReconcileUser(st, st.users[i], now)
    ensures n in HostNodes(st, ChangedUsers(st, now)) <==>
            exists i, c ::
              c in st.clients && Hosts(st, c, i, n) && next[i].(updatedAt := st.users[i].updatedAt) != st.users[i]
  {
    forall i | 0 <= i < |next|
      ensures next[i].(updatedAt := st.users[i].updatedAt) != st.users[i] <==> Changes(st, st.users[i], now)
    {
      assert st.users[i] in st.users;
      ReconciledRest(st, st.users[i], now);
    }
    forall x | x in st.inbounds ensures InboundOf(st, x.id) == Some(x) { UniqueIn(st.inbounds, InboundKey, x); }
  }

  lemma StatusChangedExact(st: State, now: Time, i: nat)
    requires Unique(st.users, UserKey) && i < |st.users|
    ensures st.users[i].id in StatusChanged(st, now) <==> EnforceUser(st, st.users[i], now).status != st.users[i].status
  {
    if st.users[i].id in StatusChanged(st, now) {
      var u :| u in st.users && EnforceUser(st, u, now).status != u.status && u.id == st.users[i].id;
      UniqueIn(st.users, UserKey, u);
      UniqueIn(st.users, UserKey, st.users[i]);
    }
  }

  /** The binding is on an inbound of the node and belongs to user i. */
  ghost predicate Hosts(st: State, c: Client, i: int, n: string) {
    && 0 <= i < |st.users| && st.users[i].id == c.userId
    && exists x :: x in st.inbounds && x.id == c.inboundId && x.nodeId == n
  }

  lemma HostsExact(st: State, c: Client, users: seq<User>, n: string)
    requires Unique(st.inbounds, InboundKey) && |users| == |st.users|
    requires forall i | 0 <= i < |users| :: users[i].id == st.users[i].id
    ensures (exists i :: Hosts(st, c, i, n)) <==>
            Find(users, UserKey, c.userId).Some? && InboundOf(st, c.inboundId).Some? &&
            InboundOf(st, c.inboundId).value.nodeId == n
  {
    forall x | x in st.inbounds ensures InboundOf(st, x.id) == Some(x) { UniqueIn(st.inbounds, InboundKey, x); }
    var f := Find(users, UserKey, c.userId);
    if f.Some? && InboundOf(st, c.inboundId).Some? && InboundOf(st, c.inboundId).value.nodeId == n {
      var i :| 0 <= i < |users| && users[i] == f.value;
      assert Hosts(st, c, i, n);
    }
    if i :| Hosts(st, c, i, n) { assert users[i] in users; }
  }

  lemma RedeploysExact(st: State, users: seq<User>, c: Client, now: Time, n: string, i: int)
    requires Unique(st.inbounds, InboundKey) && Unique(st.users, UserKey)
    requires users == EnforceUsers(st, st.users, now) && Hosts(st, c, i, n)
    ensures Redeploys(st, users, c, StatusChanged(st, now)) <==>
            Desired(users, c.userId, c.enabled) != c.enabled || users[i].status != st.users[i].status
  {
    HostsExact(st, c, users, n);
    StatusChangedExact(st, now, i);
  }

  lemma RedeployedFor(st: State, users: seq<User>, c: Client, now: Time, n: string)
    requires Unique(st.inbounds, InboundKey) && Unique(st.users, UserKey)
    requires users == EnforceUsers(st, st.users, now)
    ensures Redeploys(st, users, c, StatusChanged(st, now)) && InboundOf(st, c.inboundId).value.nodeId == n <==>
            exists i :: Hosts(st, c, i, n) &&
              (Desired(users, c.userId, c.enabled) != c.enabled || users[i].status != st.users[i].status)
  {
    HostsExact(st, c, users, n);
    forall i | Hosts(st, c, i, n)
      ensures Redeploys(st, users, c, StatusChanged(st, now)) <==>
              Desired(users, c.userId, c.enabled) != c.enabled || users[i].status != st.users[i].status
    {
      RedeploysExact(st, users, c, now, n, i);
    }
  }

  /** Main result: enforcement redeploys the nodes of the inbounds with a binding whose flag or whose user's status
      changed. */
  lemma EnforcedNodes(st: State, next: State, now: Time, n: string)
    requires Unique(st.inbounds, InboundKey) && Unique(st.users, UserKey)
    requires next.users == EnforceUsers(st, st.users, now) && |next.clients| == |st.clients|
    requires forall i | 0 <= i < |st.clients| :: next.clients[i] ==
               st.clients[i].(enabled := Desired(next.users, st.clients[i].userId, st.clients[i].enabled))
    ensures n in RedeployNodes(st, next.users, st.clients, StatusChanged(st, now)) <==>
            exists k, i :: 0 <= k < |st.clients| && Hosts(st, st.clients[k], i, n) &&
              (next.clients[k].enabled != st.clients[k].enabled || next.users[i].status != st.users[i].status)
  {
    forall k | 0 <= k < |st.clients|
      ensures Redeploys(st, next.users, st.clients[k], StatusChanged(st, now)) &&
              InboundOf(st, st.clients[k].inboundId).value.nodeId == n <==>
              exists i :: Hosts(st, st.clients[k], i, n) &&
                (next.clients[k].enabled != st.clients[k].enabled || next.users[i].status != st.users[i].status)
    {
      RedeployedFor(st, next.users, st.clients[k], now, n);
    }
  }

  /** With an own limit the plans do not matter. */
  lemma OwnLimitAlone(st: State, st': State, u: User, now: Time)
    requires u.dataLimit > 0
    ensures EnforceUser(st, u, now) == EnforceUser(st', u, now)
    ensures u.resetDays > 0 && Schedulable(st, u, now) ==>
              Schedulable(st', u, now) && ReconcileUser(st, u, now) == ReconcileUser(st', u, now)
  {
  }

  // ---------- reset intervals ----------

  /** The user's interval in days: the own one, else the plan's, else none. */
  ghost predicate Interval(st: State, u: User, days: int) {
    || (u.resetDays > 0 && days == u.resetDays)
    || (u.resetDays <= 0 && exists p :: OnPlan(st, u, p) && p.resetDays > 0 && days == p.resetDays)
  }

  ghost predicate NoInterval(st: State, u: User) {
    u.resetDays <= 0 && forall p | OnPlan(st, u, p) :: p.resetDays <= 0
  }

  lemma IntervalDecides(st: State, u: User)
    requires Unique(st.plans, PlanKey)
    ensures forall days :: Interval(st, u, days) ==> days > 0 && EffectiveResetDays(st, u) == days
    ensures NoInterval(st, u) ==> EffectiveResetDays(st, u) == 0
    ensures NoInterval(st, u) || Interval(st, u, EffectiveResetDays(st, u))
  {
    PlanFound(st, u);
  }

  lemma DayStep(days: int)
    requires 1 <= days <= 106751
    ensures Step(days) == days * DAY
  {
    StepExact(days);
  }

  /** The next reset of a schedule: in the same phase, after `now`, and at most one interval later. */
  ghost predicate NextInPhase(was: Time, next: Time, days: int, now: Time) {
    now < next <= now + days * DAY && exists k: nat :: next == was + k * (days * DAY)
  }

  /** Main result for reconciling: who is reset, and to when. */
  lemma ReconciledReset(st: State, u: User, now: Time, days: int)
    requires Unique(st.plans, PlanKey) && Schedulable(st, u, now)
    ensures NoInterval(st, u) || u.nextResetAt == 0 || now < u.nextResetAt ==>
              var v := ReconcileUser(st, u, now);
              v.nextResetAt == u.nextResetAt && v.lastResetAt == u.lastResetAt && v.used == u.used &&
              v.xrayBytes == u.xrayBytes && v.wireguardBytes == u.wireguardBytes
    ensures Interval(st, u, days) && days <= 106751 && u.nextResetAt != 0 && now >= u.nextResetAt ==>
              var v := ReconcileUser(st, u, now);
              NextInPhase(u.nextResetAt, v.nextResetAt, days, now) && v.lastResetAt == now && v.used == 0 &&
              v.xrayBytes == 0 && v.wireguardBytes == 0
  {
    IntervalDecides(st, u);
    if Interval(st, u, days) && days <= 106751 && u.nextResetAt != 0 && now >= u.nextResetAt {
      PhaseKept(u.nextResetAt, days, now);
    }
  }

  lemma PhaseKept(t: Time, days: int, now: Time)
    requires 1 <= days <= 106751 && t != 0 && t <= now
    ensures LoopStops(t, days, now) && NextInPhase(t, AdvanceResetAt(t, days, now), days, now)
  {
    DayStep(days);
    ScheduleExact(t, days, now, 0);
    var step, next := days * DAY, AdvanceResetAt(t, days, now);
    var k := (next - t) / step;
    assert next - t == k * step + (next - t) % step;
    assert next == t + k * step && k >= 0;
  }

  /** Main result for the scheduled resets: without an interval the schedule is cleared; a user without a schedule gets
      one an interval from now; before the time nothing changes; at the time the counters go to zero, a quota status is
      lifted, and the schedule moves on in phase. */
  lemma ScheduledReset(st: State, u: User, now: Time, days: int)
    requires Unique(st.plans, PlanKey)
    ensures NoInterval(st, u) ==> !Due(st, u, now) && ResetUser(st, u, now) == u.(nextResetAt := 0)
    ensures Interval(st, u, days) && days <= 106751 && u.nextResetAt == 0 ==>
              !Due(st, u, now) && ResetUser(st, u, now) == u.(nextResetAt := now + days * DAY)
    ensures Interval(st, u, days) && u.nextResetAt != 0 && now < u.nextResetAt ==>
              !Due(st, u, now) && ResetUser(st, u, now) == u
    ensures Interval(st, u, days) && days <= 106751 && u.nextResetAt != 0 && now >= u.nextResetAt ==>
              && Due(st, u, now) && LoopStops(u.nextResetAt, EffectiveResetDays(st, u), now)
              && var v := ResetUser(st, u, now);
              && v == u.(xrayBytes := 0, wireguardBytes := 0, used := 0, nextResetAt := v.nextResetAt, updatedAt := now,
                         status := if u.status == "quota-exceeded" then "active" else u.status)
              && NextInPhase(u.nextResetAt, v.nextResetAt, days, now)
  {
    IntervalDecides(st, u);
    if Interval(st, u, days) && days <= 106751 {
      DayStep(days);
      if u.nextResetAt != 0 && now >= u.nextResetAt { PhaseKept(u.nextResetAt, days, now); }
    }
  }

  /** advanceResetAt without a schedule. */
  lemma FirstReset(days: int, now: Time)
    ensures days <= 0 ==> AdvanceResetAt(0, days, now) == 0
    ensures 1 <= days <= 106751 ==> AdvanceResetAt(0, days, now) == now + days * DAY
  {
    if 1 <= days <= 106751 { DayStep(days); }
  }

  // ---------- device limits ----------

  function PeerOf(userId: string): Peer -> bool { (p: Peer) => p.userId == userId }

  lemma {:induction false} DevicesCounted(peers: seq<Peer>, userId: string)
    ensures Admin.Devices(peers, userId) == |Filter(peers, PeerOf(userId))|
  {
    if peers != [] { DevicesCounted(peers[1..], userId); }
  }

  /** The number of devices: the user's own, else the plan's, else one. */
  ghost predicate DeviceLimit(st: State, u: User, n: int) {
    || (u.deviceLimit > 0 && n == u.deviceLimit)
    || (u.deviceLimit <= 0 && exists p :: OnPlan(st, u, p) && p.deviceLimit > 0 && n == p.deviceLimit)
    || (u.deviceLimit <= 0 && (forall p | OnPlan(st, u, p) :: p.deviceLimit <= 0) && n == 1)
  }

  /** Main result: a peer is created if and only if user and node exist and the user has fewer peers than the limit. */
  lemma PeerAccepted(st: State, p: Peer, u: User, limit: int)
    requires Unique(st.plans, PlanKey) && Unique(st.users, UserKey)
    requires u in st.users && u.id == p.userId && DeviceLimit(st, u, limit)
    ensures Admin.CreatePeer(st, p).Ok? <==>
            (exists n :: n in st.nodes && n.id == p.nodeId) && |Filter(st.peers, PeerOf(u.id))| < limit
    ensures Admin.CreatePeer(st, p).Ok? ==> Admin.CreatePeer(st, p).value == st.(peers := st.peers + [p])
  {
    PlanFound(st, u);
    UniqueIn(st.users, UserKey, u);
    DevicesCounted(st.peers, u.id);
    assert (exists n :: n in st.nodes && n.id == p.nodeId) <==> NodeOf(st, p.nodeId).Some?;
  }
}
