/** Subscription lifecycle (internal/panel/subscriptions.go) and the effective limits of store.go. */
module Subscriptions {
  import opened Wrappers
  import opened Sorting
  import opened Text
  import opened Entities

  const DAY := 86_400_000_000_000
  const TWO_64 := 0x1_0000_0000_0000_0000
  const TWO_63 := 0x8000_0000_0000_0000

  /** Two's complement of 64 bits, the arithmetic of time.Duration. */
  function Wrap64(x: int): int {
    var m := x % TWO_64;
    if m < TWO_63 then m else m - TWO_64
  }

  /** time.Duration(days) * 24 * time.Hour */
  function Step(days: int): int {
    Wrap64(days * DAY)
  }

  function EffectiveUserLimit(st: State, u: User): int {
    if u.dataLimit > 0 then u.dataLimit
    else match PlanOf(st, u.planId) case None => 0 case Some(p) => p.dataLimit
  }

  function EffectiveDeviceLimit(st: State, u: User): int {
    if u.deviceLimit > 0 then u.deviceLimit
    else match PlanOf(st, u.planId) case None => 1 case Some(p) => if p.deviceLimit > 0 then p.deviceLimit else 1
  }

  function EffectiveResetDays(st: State, u: User): int {
    if u.resetDays > 0 then u.resetDays
    else match PlanOf(st, u.planId) case None => 0 case Some(p) => if p.resetDays > 0 then p.resetDays else 0
  }

  function NormalizeStatus(s: string): string {
    var x := Lower(Trim(s));
    if x == "disabled" || x == "expired" || x == "quota_exceeded" then x else "active"
  }

  /** userLifecycleStatus: status and reason. */
  function Lifecycle(st: State, u: User, now: Time): (string, string) {
    var limit := EffectiveUserLimit(st, u);
    if NormalizeStatus(u.status) == "disabled" then ("disabled", "manually disabled")
    else if u.expiresAt != 0 && now >= u.expiresAt then ("expired", "subscription expired")
    else if limit > 0 && u.used >= limit then ("quota_exceeded", "traffic quota exceeded")
    else ("active", "")
  }

  // ---------- reset schedule ----------

  /** The first instant after `now` in the arithmetic progression from `t` with the given step. */
  function NextAfter(t: Time, step: int, now: Time): (r: Time)
    requires t > now || step > 0
    ensures r > now
  {
    if t > now then t
    else
      var q := (now - t) / step;
      assert (q + 1) * step == q * step + step;
      t + (q + 1) * step
  }

  /** The loop `for !t.After(now)` stops. */
  predicate LoopStops(t: Time, days: int, now: Time) {
    t > now || Step(days) > 0
  }

  /** advanceResetAt, in closed form. */
  function AdvanceResetAt(t: Time, days: int, now: Time): Time
    requires days > 0 && t != 0 ==> LoopStops(t, days, now)
  {
    if days <= 0 then 0
    else if t == 0 then now + Step(days)
    else NextAfter(t, Step(days), now)
  }

  lemma NextAfterStep(t: Time, step: int, now: Time)
    requires step > 0 && t <= now
    ensures NextAfter(t, step, now) == NextAfter(t + step, step, now)
  {
    var d := now - t;
    var q := d / step;
    if t + step <= now {
      assert d - step == step * (q - 1) + d % step by { assert step * (q - 1) == step * q - step; }
      DivisionUnique(d - step, step, q - 1, d % step);
      assert (q + 1) * step == q * step + step;
    } else {
      DivisionUnique(d, step, 0, d);
    }
  }

  /** advanceResetAt: the loop. */
  method AdvanceReset(t0: Time, days: int, now: Time) returns (t: Time)
    requires days > 0 && t0 != 0 ==> LoopStops(t0, days, now)
    ensures t == AdvanceResetAt(t0, days, now)
  {
    t := t0;
    if days <= 0 {
      return 0;
    }
    if t == 0 {
      return now + Step(days);
    }
    while t <= now
      invariant LoopStops(t, days, now) && NextAfter(t, Step(days), now) == NextAfter(t0, Step(days), now)
      decreases now - t
    {
      NextAfterStep(t, Step(days), now);
      t := t + Step(days);
    }
  }

  /** For the day counts whose product fits a Duration the step does not wrap. */
  lemma StepExact(days: int)
    requires 1 <= days <= 106751
    ensures Step(days) == days * DAY > 0
  {
  }

  /** Past that bound the product wraps: 106752 days make a negative step. */
  lemma StepWraps()
    ensures Step(106752) < 0
  {
  }

  /** The result is the one instant of the progression in the half-open window (now, now + step]. */
  lemma ScheduleExact(t: Time, days: int, now: Time, k: nat)
    requires 1 <= days <= 106751 && t != 0 && t <= now
    ensures var step, next := days * DAY, AdvanceResetAt(t, days, now);
            && now < next <= now + step
            && (next - t) % step == 0
            && (now < t + k * step <= now + step ==> t + k * step == next)
  {
    StepExact(days);
    var step := days * DAY;
    var q := (now - t) / step;
    assert now - t == q * step + (now - t) % step;
    var next := t + (q + 1) * step;
    assert next - t == (q + 1) * step;
    ModOfMultiple(q + 1, step);
    assert (q + 1) * step == q * step + step;
    if now < t + k * step <= now + step {
      assert k <= q ==> k * step <= q * step by { Monotone(k, q, step); }
      assert k >= q + 2 ==> k * step >= (q + 2) * step by { Monotone(q + 2, k, step); }
      assert (q + 2) * step == q * step + 2 * step;
      assert k == q + 1;
    }
  }

  lemma Monotone(a: int, b: int, step: int)
    requires step > 0
    ensures a <= b ==> a * step <= b * step
  {
  }

  lemma ModOfMultiple(q: int, step: int)
    requires step > 0
    ensures (q * step) % step == 0
  {
    assert q * step == step * q + 0;
    DivisionUnique(q * step, step, q, 0);
  }

  lemma DivisionUnique(x: int, d: int, q: int, r: int)
    requires d > 0 && x == d * q + r && 0 <= r < d
    ensures x / d == q && x % d == r
  {
    var q', r' := x / d, x % d;
    assert d * (q - q') == r' - r;
    Monotone(1, q - q', d);
    Monotone(q - q', -1, d);
  }

  /** When LoopStops fails the loop never leaves: no iterate passes `now`. */
  lemma {:induction false} LoopDiverges(t: Time, days: int, now: Time, k: nat)
    requires !LoopStops(t, days, now)
    ensures t + k * Step(days) <= now
  {
    assert k * Step(days) <= 0;
  }

  // ---------- reconcileSubscriptions ----------

  predicate ResetDue(st: State, u: User, now: Time) {
    EffectiveResetDays(st, u) > 0 && u.nextResetAt != 0 && now >= u.nextResetAt
  }

  predicate Schedulable(st: State, u: User, now: Time) {
    ResetDue(st, u, now) ==> LoopStops(u.nextResetAt, EffectiveResetDays(st, u), now)
  }

  function AfterReset(st: State, u: User, now: Time): User
    requires Schedulable(st, u, now)
  {
    if !ResetDue(st, u, now) then u
    else u.(used := 0, xrayBytes := 0, wireguardBytes := 0, lastResetAt := now,
            nextResetAt := AdvanceResetAt(u.nextResetAt, EffectiveResetDays(st, u), now))
  }

  predicate Changes(st: State, u: User, now: Time)
    requires Schedulable(st, u, now)
  {
    var v := AfterReset(st, u, now);
    ResetDue(st, u, now) || v.status != Lifecycle(st, v, now).0 || v.statusReason != Lifecycle(st, v, now).1
  }

  function ReconcileUser(st: State, u: User, now: Time): User
    requires Schedulable(st, u, now)
  {
    var v := AfterReset(st, u, now);
    var (status, reason) := Lifecycle(st, v, now);
    if Changes(st, u, now) then v.(status := status, statusReason := reason, updatedAt := now) else v
  }

  /** Nodes that host an inbound one of the users is bound to. */
  function HostNodes(st: State, userIds: set<string>): set<string> {
    set c | c in st.clients && c.userId in userIds && InboundOf(st, c.inboundId).Some? ::
      InboundOf(st, c.inboundId).value.nodeId
  }

  predicate AllSchedulable(st: State, now: Time) {
    forall u | u in st.users :: Schedulable(st, u, now)
  }

  function ChangedUsers(st: State, now: Time): set<string>
    requires AllSchedulable(st, now)
  {
    set u | u in st.users && Changes(st, u, now) :: u.id
  }

  /** Go's map keys collected and passed to sort.Strings. */
  method SortedKeys(keys: set<string>) returns (r: seq<string>)
    ensures multiset(r) == multiset(keys) && Sorted(r, LexLe)
  {
    var out: seq<string> := [];
    var left := keys;
    while left != {}
      invariant left <= keys && multiset(out) + multiset(left) == multiset(keys)
      decreases |left|
    {
      var x :| x in left;
      left := left - {x};
      out := out + [x];
    }
    LexPreorder();
    SortCorrect(out, LexLe);
    r := StableSort(out, LexLe);
  }

  /** The body of the loop over users. */
  method ReconcileOne(st: State, was: User, now: Time) returns (u: User, changes: bool)
    requires Schedulable(st, was, now)
    ensures u == ReconcileUser(st, was, now) && changes == Changes(st, was, now)
  {
    u := was;
    changes := false;
    var days := EffectiveResetDays(st, u);
    if days > 0 && u.nextResetAt != 0 && now >= u.nextResetAt {
      var t := AdvanceReset(u.nextResetAt, days, now);
      u := u.(used := 0, xrayBytes := 0, wireguardBytes := 0, lastResetAt := now, nextResetAt := t);
      changes := true;
    }
    var (status, reason) := Lifecycle(st, u, now);
    if u.status != status || u.statusReason != reason {
      u := u.(status := status, statusReason := reason);
      changes := true;
    }
    if changes {
      u := u.(updatedAt := now);
    }
  }

  /** reconcileSubscriptions. The nodes come back sorted and without duplicates: their multiset is that of a set. */
  method Reconcile(st: State, now: Time) returns (next: State, nodes: seq<string>)
    requires AllSchedulable(st, now)
    ensures next == st.(users := next.users) && |next.users| == |st.users|
    ensures forall i | 0 <= i < |st.users| :: next.users[i] == ReconcileUser(st, st.users[i], now)
    ensures multiset(nodes) == multiset(HostNodes(st, ChangedUsers(st, now))) && Sorted(nodes, LexLe)
    ensures SameReferences(st, next)
  {
    var users := st.users;
    var touched: set<string> := {};
    ghost var changed: set<string> := {};
    for i := 0 to |st.users|
      invariant |users| == |st.users|
      invariant forall j | 0 <= j < i :: users[j] == ReconcileUser(st, st.users[j], now)
      invariant forall j | i <= j < |users| :: users[j] == st.users[j]
      invariant changed == set j | 0 <= j < i && Changes(st, st.users[j], now) :: st.users[j].id
      invariant touched == HostNodes(st, changed)
    {
      assert st.users[i] in st.users;
      var u, changes := ReconcileOne(st, users[i], now);
      if changes {
        touched := touched + HostNodes(st, {u.id});
        changed := changed + {u.id};
      }
      users := users[i := u];
    }
    assert changed == ChangedUsers(st, now);
    nodes := SortedKeys(touched);
    next := st.(users := users);
  }

  /** The lifecycle decision is stable under writing it into the record. */
  lemma LifecycleStable(st: State, st': State, u: User, v: User, now: Time)
    requires st'.plans == st.plans
    requires v == u.(status := Lifecycle(st, u, now).0, statusReason := Lifecycle(st, u, now).1,
             updatedAt := v.updatedAt)
    ensures Lifecycle(st', v, now) == Lifecycle(st, u, now)
  {
    NormalizeFixed();
    assert EffectiveUserLimit(st', v) == EffectiveUserLimit(st, u);
  }

  /** Reconciling a user twice at the same instant is reconciling once. */
  lemma ReconcileUserIdempotent(st: State, st': State, u: User, now: Time)
    requires Schedulable(st, u, now) && st'.plans == st.plans
    ensures var v := ReconcileUser(st, u, now);
            Schedulable(st', v, now) && !Changes(st', v, now) && ReconcileUser(st', v, now) == v
  {
    var a, v := AfterReset(st, u, now), ReconcileUser(st, u, now);
    assert !ResetDue(st', v, now);
    assert AfterReset(st', v, now) == v;
    LifecycleStable(st, st', a, v, now);
  }

  lemma NormalizeFixed()
    ensures NormalizeStatus("disabled") == "disabled" && NormalizeStatus("expired") == "expired"
    ensures NormalizeStatus("quota_exceeded") == "quota_exceeded" && NormalizeStatus("active") == "active"
    ensures NormalizeStatus("quota-exceeded") == "active"
  {
    assert Trim("disabled") == "disabled" && Lower("disabled") == "disabled";
    assert Trim("expired") == "expired" && Lower("expired") == "expired";
    assert Trim("quota_exceeded") == "quota_exceeded" && Lower("quota_exceeded") == "quota_exceeded";
    assert Trim("active") == "active" && Lower("active") == "active";
    assert Trim("quota-exceeded") == "quota-exceeded" && Lower("quota-exceeded") == "quota-exceeded";
  }

  /** reconcileSubscriptions is idempotent: a second call at the same instant changes nothing and reports no node. */
  lemma ReconcileIdempotent(st: State, once: State, now: Time)
    requires AllSchedulable(st, now)
    requires once == st.(users := once.users) && |once.users| == |st.users|
    requires forall i | 0 <= i < |st.users| :: once.users[i] == ReconcileUser(st, st.users[i], now)
    ensures AllSchedulable(once, now)
    ensures forall i | 0 <= i < |once.users| :: ReconcileUser(once, once.users[i], now) == once.users[i]
    ensures HostNodes(once, ChangedUsers(once, now)) == {}
  {
    forall i | 0 <= i < |once.users|
      ensures Schedulable(once, once.users[i], now) && !Changes(once, once.users[i], now)
      ensures ReconcileUser(once, once.users[i], now) == once.users[i]
    {
      ReconcileUserIdempotent(st, once, st.users[i], now);
    }
  }
}
