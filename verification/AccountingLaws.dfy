/** Laws that hold across the lifecycle and accounting passes. */
module AccountingLaws {
  import opened Wrappers
  import opened Lists
  import opened Entities
  import opened Subscriptions
  import opened Accounting

  // ---------- two status deciders ----------

  predicate StrictlyExpired(u: User, now: Time) {
    u.expiresAt != 0 && now > u.expiresAt
  }

  predicate QuotaHit(st: State, u: User) {
    EffectiveUserLimit(st, u) > 0 && u.wireguardBytes + u.xrayBytes >= EffectiveUserLimit(st, u)
  }

  /** What reconciling leaves behind. */
  lemma Reconciled(st: State, u: User, now: Time)
    requires Schedulable(st, u, now)
    ensures var v := ReconcileUser(st, u, now);
            v.status == Lifecycle(st, v, now).0 &&
                (u.used == u.wireguardBytes + u.xrayBytes ==> v.used == v.wireguardBytes + v.xrayBytes)
  {
    ReconcileUserIdempotent(st, st, u, now);
  }

  /** A lifecycle status is one of four, none of which is the spelling enforcement uses for the quota. */
  lemma LifecycleNames(st: State, v: User, now: Time)
    ensures var s := Lifecycle(st, v, now).0;
            && (s == "disabled" || s == "expired" || s == "quota_exceeded" || s == "active")
            && NormalizeStatus(s) == s && s != "quota-exceeded"
    ensures NormalizeStatus("quota-exceeded") == "active" && NormalizeStatus("expired") == "expired"
    ensures NormalizeStatus("active") == "active"
  {
    NormalizeFixed();
  }

  lemma SamePlansSameLimits(st: State, st': State, v: User, w: User)
    requires st'.plans == st.plans
    requires w.dataLimit == v.dataLimit && w.resetDays == v.resetDays && w.planId == v.planId
    ensures EffectiveUserLimit(st', w) == EffectiveUserLimit(st, v)
    ensures EffectiveResetDays(st', w) == EffectiveResetDays(st, v)
  {
  }

  /** What enforcement makes of a user whose status is not its own word for the quota. */
  lemma EnforcedStatus(st: State, v: User, now: Time)
    requires v.status != "quota-exceeded"
    ensures var w := EnforceUser(st, v, now);
            w.status == if StrictlyExpired(v, now) then "expired" else if QuotaHit(st, v) then "quota-exceeded"
                        else v.status
  {
    SamePlansSameLimits(st, st, v, v.(used := v.wireguardBytes + v.xrayBytes));
  }

  lemma Enforced(st: State, mid: State, v: User, now: Time)
    requires mid.plans == st.plans && v.status == Lifecycle(st, v, now).0
    ensures var w := EnforceUser(mid, v, now);
            w.status == if StrictlyExpired(v, now) then "expired" else if QuotaHit(st, v) then "quota-exceeded"
                        else v.status
    ensures var w := EnforceUser(mid, v, now);
            && w.expiresAt == v.expiresAt && w.used == v.wireguardBytes + v.xrayBytes && w.nextResetAt == v.nextResetAt
            && w.statusReason == v.statusReason
            && EffectiveUserLimit(st, w) == EffectiveUserLimit(st, v) &&
               EffectiveResetDays(st, w) == EffectiveResetDays(st, v)
  {
    LifecycleNames(st, v, now);
    EnforcedStatus(mid, v, now);
    SamePlansSameLimits(st, mid, v, v);
    SamePlansSameLimits(st, st, v, EnforceUser(mid, v, now));
  }

  lemma DecidersAgreeIn(st: State, mid: State, end: State, v: User, now: Time)
    requires mid.plans == st.plans && end.plans == st.plans
    requires v.status == Lifecycle(st, v, now).0 && v.used == v.wireguardBytes + v.xrayBytes
    ensures var w := EnforceUser(mid, v, now);
            && (w.status == "active" <==> v.status == "active")
            && (w.status == "active" <==> Lifecycle(end, w, now).0 == "active")
  {
    LifecycleNames(st, v, now);
    Enforced(st, mid, v, now);
    var w := EnforceUser(mid, v, now);
    assert EffectiveUserLimit(end, w) == EffectiveUserLimit(st, v);
  }

  /** Reconcile, then enforce, at one instant: the stored status is "active" exactly when the lifecycle says so,
      asked before or after the enforcement, although the two deciders differ at the expiry instant, in the spelling
      of the quota status and in what they do to disabled users. */
  lemma DecidersAgree(st: State, mid: State, end: State, u: User, now: Time)
    requires Schedulable(st, u, now) && mid.plans == st.plans && end.plans == st.plans
    requires u.used == u.wireguardBytes + u.xrayBytes
    ensures var v := ReconcileUser(st, u, now);
            var w := EnforceUser(mid, v, now);
            && (w.status == "active" <==> Lifecycle(mid, v, now).0 == "active")
            && (w.status == "active" <==> Lifecycle(end, w, now).0 == "active")
  {
    var v := ReconcileUser(st, u, now);
    Reconciled(st, u, now);
    DecidersAgreeIn(st, mid, end, v, now);
    assert EffectiveUserLimit(mid, v) == EffectiveUserLimit(st, v);
    assert Lifecycle(mid, v, now) == Lifecycle(st, v, now);
  }

  /** Enforcement keeps a manual "disabled" exactly when neither expiry nor quota strikes. */
  lemma DisabledKept(st: State, u: User, now: Time)
    requires u.status == "disabled"
    ensures var limit := EffectiveUserLimit(st, u);
            EnforceUser(st, u, now).status == "disabled" <==>
            !(u.expiresAt != 0 && now > u.expiresAt) && !(limit > 0 && u.wireguardBytes + u.xrayBytes >= limit)
  {
  }

  /** Enforcement will overrule what reconciling decides: a disabled user past the expiry, or, short of that, any user
      over quota, whose status the two passes spell differently. */
  predicate Overruled(st: State, u: User, now: Time)
    requires Schedulable(st, u, now)
  {
    var a := AfterReset(st, u, now);
    if StrictlyExpired(a, now) then NormalizeStatus(a.status) == "disabled" else QuotaHit(st, a)
  }

  lemma OverruledAfter(st: State, mid: State, end: State, v: User, now: Time)
    requires mid.plans == st.plans && end.plans == st.plans
    requires v.status == Lifecycle(st, v, now).0 && v.statusReason == Lifecycle(st, v, now).1
    requires v.used == v.wireguardBytes + v.xrayBytes && !ResetDue(st, v, now)
    ensures var w := EnforceUser(mid, v, now);
            var over := if StrictlyExpired(v, now) then v.status == "disabled" else QuotaHit(st, v);
            && (w.status != v.status <==> over)
            && !ResetDue(end, w, now)
            && ((w.status, w.statusReason) != Lifecycle(end, w, now) <==> over)
  {
    LifecycleNames(st, v, now);
    Enforced(st, mid, v, now);
    var w := EnforceUser(mid, v, now);
    assert EffectiveUserLimit(end, w) == EffectiveUserLimit(st, v);
    assert EffectiveResetDays(end, w) == EffectiveResetDays(st, v);
  }

  lemma DisabledThrough(st: State, u: User, now: Time)
    requires Schedulable(st, u, now)
    ensures ReconcileUser(st, u, now).status == "disabled" <==> NormalizeStatus(u.status) == "disabled"
  {
    ReconcileUserIdempotent(st, st, u, now);
    NormalizeFixed();
  }

  /** Reconcile, then enforce, at one instant: a further reconciling pass changes the user again, and names nodes again,
      exactly when enforcement overrules. */
  lemma PassStable(st: State, mid: State, end: State, u: User, now: Time)
    requires Schedulable(st, u, now) && mid.plans == st.plans && end.plans == st.plans
    requires u.used == u.wireguardBytes + u.xrayBytes
    ensures var v := ReconcileUser(st, u, now);
            var w := EnforceUser(mid, v, now);
            && Schedulable(end, w, now)
            && (Changes(end, w, now) <==> Overruled(st, u, now))
            && (w.status != v.status <==> Overruled(st, u, now))
  {
    var v := ReconcileUser(st, u, now);
    Reconciled(st, u, now);
    ReconcileUserIdempotent(st, st, u, now);
    DisabledThrough(st, u, now);
    OverruledAfter(st, mid, end, v, now);
  }

  // ---------- a disabled user over quota ----------

  /** What may happen to a user record between two actions of an administrator. */
  datatype Pass =
    | Reconciling(st: State, now: Time) | Enforcing(st: State, now: Time) | Resetting(st: State, now: Time)
    | Counting(wireguardBytes: int, xrayBytes: int)

  predicate CanPass(u: User, x: Pass) {
    match x
    case Reconciling(st, now) => Schedulable(st, u, now)
    case Enforcing(_, _) => true
    case Resetting(st, now) => Due(st, u, now) ==> LoopStops(u.nextResetAt, EffectiveResetDays(st, u), now)
    case Counting(_, _) => true
  }

  function AfterPass(u: User, x: Pass): User
    requires CanPass(u, x)
  {
    match x
    case Reconciling(st, now) => ReconcileUser(st, u, now)
    case Enforcing(st, now) => EnforceUser(st, u, now)
    case Resetting(st, now) => ResetUser(st, u, now)
    case Counting(w, x) => u.(wireguardBytes := w, xrayBytes := x, used := w + x)
  }

  ghost predicate PassRun(trace: seq<User>, passes: seq<Pass>) {
    && |trace| == |passes| + 1
    && forall k | 0 <= k < |passes| :: CanPass(trace[k], passes[k]) && trace[k + 1] == AfterPass(trace[k], passes[k])
  }

  lemma EnforcedStaysEnabled(st: State, u: User, now: Time)
    requires NormalizeStatus(u.status) != "disabled"
    ensures NormalizeStatus(EnforceUser(st, u, now).status) != "disabled"
  {
    LifecycleNames(st, u, now);
  }

  lemma ResetStaysEnabled(st: State, u: User, now: Time)
    requires NormalizeStatus(u.status) != "disabled" && CanPass(u, Resetting(st, now))
    ensures NormalizeStatus(ResetUser(st, u, now).status) != "disabled"
  {
    LifecycleNames(st, u, now);
  }

  lemma StaysEnabled(u: User, x: Pass)
    requires CanPass(u, x) && NormalizeStatus(u.status) != "disabled"
    ensures NormalizeStatus(AfterPass(u, x).status) != "disabled"
  {
    match x
    case Reconciling(st, now) =>
      DisabledThrough(st, u, now);
      LifecycleNames(st, AfterReset(st, u, now), now);
      Reconciled(st, u, now);
      LifecycleNames(st, ReconcileUser(st, u, now), now);
    case Enforcing(st, now) => EnforcedStaysEnabled(st, u, now);
    case Resetting(st, now) => ResetStaysEnabled(st, u, now);
    case Counting(_, _) =>
  }

  lemma {:induction false} NeverDisabledAgain(trace: seq<User>, passes: seq<Pass>, k: nat)
    requires PassRun(trace, passes) && k < |trace| && NormalizeStatus(trace[0].status) != "disabled"
    ensures NormalizeStatus(trace[k].status) != "disabled"
  {
    if k > 0 {
      NeverDisabledAgain(trace, passes, k - 1);
      StaysEnabled(trace[k - 1], passes[k - 1]);
    }
  }

  lemma ActiveAfterReset(st: State, v: User, now: Time)
    requires Schedulable(st, v, now) && NormalizeStatus(v.status) != "disabled"
    requires v.expiresAt == 0 || now < v.expiresAt
    requires ResetDue(st, v, now) || v.used == 0
    ensures ReconcileUser(st, v, now).status == "active"
  {
    NormalizeFixed();
    var a := AfterReset(st, v, now);
    assert EffectiveUserLimit(st, a) == EffectiveUserLimit(st, v);
  }

  /** Once enforcement has overruled a manual "disabled", the user is not disabled by any later passes, and becomes
      active as soon as a reset is due before the expiry, whether reconciling resets the user itself or finds the
      record that the scheduled reset left. */
  lemma DisabledRevived(st: State, u: User, now: Time, trace: seq<User>, passes: seq<Pass>, st': State, later: Time)
    requires u.status == "disabled" && (StrictlyExpired(u, now) || QuotaHit(st, u))
    requires PassRun(trace, passes) && trace[0] == EnforceUser(st, u, now)
    requires var v := trace[|passes|];
             Schedulable(st', v, later) && ResetDue(st', v, later) && (v.expiresAt == 0 || later < v.expiresAt)
    ensures var v := trace[|passes|];
            && ReconcileUser(st', v, later).status == "active"
            && Due(st', v, later)
            && Schedulable(st', ResetUser(st', v, later), later)
            && ReconcileUser(st', ResetUser(st', v, later), later).status == "active"
  {
    EnforcedDisabled(st, u, now);
    NeverDisabledAgain(trace, passes, |passes|);
    var v := trace[|passes|];
    ActiveAfterReset(st', v, later);
    ResetStaysEnabled(st', v, later);
    ResetLeaves(st', v, later);
    ActiveAfterReset(st', ResetUser(st', v, later), later);
  }

  lemma EnforcedDisabled(st: State, u: User, now: Time)
    requires u.status == "disabled" && (StrictlyExpired(u, now) || QuotaHit(st, u))
    ensures NormalizeStatus(EnforceUser(st, u, now).status) != "disabled"
  {
    LifecycleNames(st, u, now);
    assert "disabled"[0] != "quota-exceeded"[0];
    EnforcedStatus(st, u, now);
  }

  lemma ResetLeaves(st: State, v: User, now: Time)
    requires Schedulable(st, v, now) && ResetDue(st, v, now)
    ensures Due(st, v, now)
    ensures var w := ResetUser(st, v, now);
            w.used == 0 && w.expiresAt == v.expiresAt && !ResetDue(st, w, now) && Schedulable(st, w, now)
  {
    var w := ResetUser(st, v, now);
    assert EffectiveResetDays(st, w) == EffectiveResetDays(st, v);
  }

  // ---------- enable flags ----------

  /** peerTasks is exactly the set of peers that flipped. */
  lemma {:induction false} TasksAreFlips(users: seq<User>, peers: seq<Peer>)
    ensures forall p :: p in Flips(users, peers) <==>
                        exists q :: q in peers && SetPeer(users, q) != q && p == SetPeer(users, q)
  {
    if peers != [] {
      var last, init := peers[|peers| - 1], peers[..|peers| - 1];
      TasksAreFlips(users, init);
      assert peers == init + [last];
      forall p
        ensures p in Flips(users, peers) <==> exists q :: q in peers && SetPeer(users, q) != q && p == SetPeer(users, q)
      {
        if p in Flips(users, init) {
          var q :| q in init && SetPeer(users, q) != q && p == SetPeer(users, q);
          assert q in peers;
        } else if p in Flips(users, peers) {
          assert last in peers;
        }
      }
    }
  }

  // ---------- WireGuard totals ----------

  predicate SamePeer(a: Peer, b: Peer) {
    b == a.(rx := b.rx, tx := b.tx)
  }

  /** One sync under which no reported counter went back. */
  predicate Grows(before: seq<Peer>, after: seq<Peer>, seen: map<string, WgStat>) {
    && |after| == |before|
    && forall i | 0 <= i < |before| ::
         && after[i] == CountPeer(before[i], seen)
         && after[i].rx >= before[i].rx && after[i].tx >= before[i].tx
  }

  /** Bytes between two readings of the same peers, for one user. */
  function Gain(before: seq<Peer>, after: seq<Peer>, userId: string): int
    requires |before| == |after|
  {
    if before == [] then 0
    else
      var k := |before| - 1;
      Gain(before[..k], after[..k], userId) +
      (if before[k].userId == userId then (after[k].rx - before[k].rx) + (after[k].tx - before[k].tx) else 0)
  }

  /** A run of syncs: `trace[0]` is the state of the peers right after a reset rebased those of the user. */
  ghost predicate SyncRun(trace: seq<seq<Peer>>, reports: seq<map<string, WgStat>>) {
    && |trace| == |reports| + 1
    && forall k | 0 <= k < |reports| :: Grows(trace[k], trace[k + 1], reports[k])
  }

  lemma {:induction false} RunGrows(trace: seq<seq<Peer>>, reports: seq<map<string, WgStat>>, k: nat)
    requires SyncRun(trace, reports) && k < |trace|
    ensures |trace[k]| == |trace[0]|
    ensures forall i | 0 <= i < |trace[0]| ::
              SamePeer(trace[0][i], trace[k][i]) && trace[k][i].rx >= trace[0][i].rx && trace[k][i].tx >= trace[0][i].tx
  {
    if k > 0 {
      RunGrows(trace, reports, k - 1);
      assert Grows(trace[k - 1], trace[k], reports[k - 1]);
    }
  }

  lemma {:induction false} BytesAreGain(before: seq<Peer>, after: seq<Peer>, userId: string)
    requires |before| == |after|
    requires forall i | 0 <= i < |before| ::
               && SamePeer(before[i], after[i]) && after[i].rx >= before[i].rx && after[i].tx >= before[i].tx
               && (before[i].userId == userId ==> before[i].rxBase == before[i].rx && before[i].txBase == before[i].tx)
    ensures UserBytes(after, userId) == Gain(before, after, userId)
  {
    if before != [] {
      var k := |before| - 1;
      BytesAreGain(before[..k], after[..k], userId);
    }
  }

  /** After processTrafficResets rebased a user's peers, every later sync of a run with growing counters counts for
      that user exactly the bytes since the reset. */
  lemma BytesSinceReset(trace: seq<seq<Peer>>, reports: seq<map<string, WgStat>>, userId: string, k: nat)
    requires SyncRun(trace, reports) && k < |trace|
    requires forall p | p in trace[0] && p.userId == userId :: p == Rebase(p)
    ensures |trace[k]| == |trace[0]|
    ensures UserBytes(trace[k], userId) == Gain(trace[0], trace[k], userId)
  {
    RunGrows(trace, reports, k);
    forall i | 0 <= i < |trace[0]| && trace[0][i].userId == userId
      ensures trace[0][i].rxBase == trace[0][i].rx && trace[0][i].txBase == trace[0][i].tx
    {
      assert trace[0][i] in trace[0];
    }
    BytesAreGain(trace[0], trace[k], userId);
  }

  /** processTrafficResets leaves the peers of every user it resets in the state BytesSinceReset starts from. */
  lemma ResetRebases(st: State, peers: seq<Peer>, now: Time, userId: string)
    requires |peers| == |st.peers|
    requires forall j | 0 <= j < |peers| ::
               peers[j] == if st.peers[j].userId in DueUsers(st, now) then Rebase(st.peers[j]) else st.peers[j]
    requires userId in DueUsers(st, now)
    ensures forall p | p in peers && p.userId == userId :: p == Rebase(p)
    ensures UserBytes(peers, userId) == 0
  {
    ZeroBytes(peers, userId);
  }

  lemma {:induction false} ZeroBytes(peers: seq<Peer>, userId: string)
    ensures UserBytes(peers, userId) == 0 <==>
            forall p | p in peers && p.userId == userId :: p.rx <= p.rxBase && p.tx <= p.txBase
  {
    if peers != [] {
      var last, init := peers[|peers| - 1], peers[..|peers| - 1];
      ZeroBytes(init, userId);
      assert peers == init + [last];
      assert last in peers && forall p | p in init :: p in peers;
      if forall p | p in init && p.userId == userId :: p.rx <= p.rxBase && p.tx <= p.txBase {
        assert forall p | p in peers :: p in init || p == last;
      }
    }
  }

  lemma {:induction false} GainOnTop(before: seq<Peer>, after: seq<Peer>, userId: string)
    requires |before| == |after|
    requires forall i | 0 <= i < |before| ::
               && SamePeer(before[i], after[i]) && after[i].rx >= before[i].rx && after[i].tx >= before[i].tx
               && (before[i].userId == userId ==> before[i].rx >= before[i].rxBase && before[i].tx >= before[i].txBase)
    ensures UserBytes(after, userId) == UserBytes(before, userId) + Gain(before, after, userId)
  {
    if before != [] {
      var k := |before| - 1;
      GainOnTop(before[..k], after[..k], userId);
    }
  }

  /** The reset in reconcileSubscriptions zeroes the WireGuard total but leaves the baselines: after any later sync the
      total is what it would have been without the reset, and it is the bytes since the reset exactly when no peer of
      the user stood above its baseline. Counters grow, from the baselines on. */
  lemma ReconcileResetLasts(st: State, u: User, trace: seq<seq<Peer>>, reports: seq<map<string, WgStat>>, k: nat,
                            active: bool, now: Time)
    requires Schedulable(st, u, now) && ResetDue(st, u, now) && SyncRun(trace, reports) && k < |trace|
    requires forall p | p in trace[0] && p.userId == u.id :: p.rx >= p.rxBase && p.tx >= p.txBase
    ensures ReconcileUser(st, u, now).wireguardBytes == 0 && |trace[k]| == |trace[0]|
    ensures var total := CountUser(ReconcileUser(st, u, now), trace[k], active, now).wireguardBytes;
            && total == CountUser(u, trace[k], active, now).wireguardBytes
            && (total == Gain(trace[0], trace[k], u.id) <==>
                forall p | p in trace[0] && p.userId == u.id :: p.rx <= p.rxBase && p.tx <= p.txBase)
  {
    RunGrows(trace, reports, k);
    forall i | 0 <= i < |trace[0]| && trace[0][i].userId == u.id
      ensures trace[0][i].rx >= trace[0][i].rxBase && trace[0][i].tx >= trace[0][i].txBase
    {
      assert trace[0][i] in trace[0];
    }
    GainOnTop(trace[0], trace[k], u.id);
    ZeroBytes(trace[0], u.id);
  }

  // ---------- re-enabling a peer ----------

  function BytesFor(p: Peer, userId: string): nat {
    if p.userId == userId then PeerBytes(p) else 0
  }

  lemma {:induction false} BytesUpdate(peers: seq<Peer>, i: nat, y: Peer, userId: string)
    requires i < |peers|
    ensures UserBytes(peers[i := y], userId) + BytesFor(peers[i], userId) ==
            UserBytes(peers, userId) + BytesFor(y, userId)
  {
    var n := |peers| - 1;
    if i < n {
      BytesUpdate(peers[..n], i, y, userId);
      assert peers[i := y][..n] == peers[..n][i := y];
    } else {
      assert peers[i := y][..n] == peers[..n];
    }
  }

  /** The bytes that a task makes the panel forget. */
  function Forgets(task: Peer, ok: bool, userId: string): nat {
    if ok && task.enabled then BytesFor(task, userId) else 0
  }

  function ForgetsAll(tasks: seq<Peer>, ok: nat -> bool, userId: string): nat {
    if tasks == [] then 0
    else ForgetsAll(tasks[..|tasks| - 1], ok, userId) + Forgets(tasks[|tasks| - 1], ok(|tasks| - 1), userId)
  }

  lemma PushForgets(peers: seq<Peer>, task: Peer, ok: bool, userId: string)
    requires Find(peers, PeerKey, task.id) == Some(task)
    ensures UserBytes(Pushed(peers, task, ok), userId) + Forgets(task, ok, userId) == UserBytes(peers, userId)
    ensures forall id | id != task.id :: Find(Pushed(peers, task, ok), PeerKey, id) == Find(peers, PeerKey, id)
  {
    var i := IndexOf(peers, PeerKey, task.id);
    var back, zero := task.(enabled := !task.enabled), task.(rx := 0, tx := 0, rxBase := 0, txBase := 0);
    FindReplace(peers, PeerKey, task.id, back);
    FindReplace(peers, PeerKey, task.id, zero);
    BytesUpdate(peers, i, back, userId);
    BytesUpdate(peers, i, zero, userId);
  }

  /** The tasks are stored peers, each once. */
  ghost predicate TasksStored(peers: seq<Peer>, tasks: seq<Peer>) {
    && (forall k | 0 <= k < |tasks| :: Find(peers, PeerKey, tasks[k].id) == Some(tasks[k]))
    && Unique(tasks, PeerKey)
  }

  lemma {:induction false} PushesForget(peers: seq<Peer>, tasks: seq<Peer>, ok: nat -> bool, userId: string)
    requires TasksStored(peers, tasks)
    ensures UserBytes(PushedAll(peers, tasks, ok), userId) + ForgetsAll(tasks, ok, userId) == UserBytes(peers, userId)
    ensures forall id | id !in Ids(tasks, PeerKey) ::
              Find(PushedAll(peers, tasks, ok), PeerKey, id) == Find(peers, PeerKey, id)
  {
    if tasks != [] {
      var n := |tasks| - 1;
      var init, last := tasks[..n], tasks[n];
      PushesForget(peers, init, ok, userId);
      assert last.id !in Ids(init, PeerKey) by {
        forall k | 0 <= k < n ensures PeerKey(init[k]) != last.id { assert PeerKey(tasks[k]) != PeerKey(tasks[n]); }
      }
      PushForgets(PushedAll(peers, init, ok), last, ok(n), userId);
      forall id | id !in Ids(tasks, PeerKey) ensures id != last.id && id !in Ids(init, PeerKey) {
        assert PeerKey(tasks[n]) in Ids(tasks, PeerKey);
        forall k | 0 <= k < n ensures PeerKey(init[k]) in Ids(tasks, PeerKey) {
          assert PeerKey(tasks[k]) in Ids(tasks, PeerKey);
        }
      }
    }
  }

  /** The tasks of the local pass are stored as it left them. */
  lemma FlipsStored(users: seq<User>, before: seq<Peer>, after: seq<Peer>)
    requires Unique(before, PeerKey) && |after| == |before|
    requires forall i | 0 <= i < |before| :: after[i] == SetPeer(users, before[i])
    ensures TasksStored(after, Flips(users, before))
  {
    TasksAreFlips(users, before);
    assert Unique(after, PeerKey);
    var tasks := Flips(users, before);
    forall k | 0 <= k < |tasks| ensures Find(after, PeerKey, tasks[k].id) == Some(tasks[k]) {
      assert tasks[k] in tasks;
      var q :| q in before && SetPeer(users, q) != q && tasks[k] == SetPeer(users, q);
      var i :| 0 <= i < |before| && before[i] == q;
      assert after[i] == tasks[k];
      UniqueIn(after, PeerKey, after[i]);
    }
    FlipsUnique(users, before);
  }

  lemma {:induction false} FlipsUnique(users: seq<User>, peers: seq<Peer>)
    requires Unique(peers, PeerKey)
    ensures Unique(Flips(users, peers), PeerKey)
  {
    if peers != [] {
      var n := |peers| - 1;
      FlipsUnique(users, peers[..n]);
      TasksAreFlips(users, peers[..n]);
      var fs := Flips(users, peers[..n]);
      forall k | 0 <= k < |fs| ensures PeerKey(fs[k]) != PeerKey(peers[n]) {
        assert fs[k] in fs;
        var q :| q in peers[..n] && fs[k] == SetPeer(users, q);
        var i :| 0 <= i < n && peers[i] == q;
        assert PeerKey(peers[i]) != PeerKey(peers[n]);
      }
    }
  }

  /** After the local pass and its tasks, the WireGuard total that a later sync of a run with growing counters computes
      is short, by what the accepted re-enablings forgot, of the bytes stored before them plus the bytes since. */
  lemma ReenablingForgets(users: seq<User>, before: seq<Peer>, after: seq<Peer>, ok: nat -> bool, userId: string,
                          trace: seq<seq<Peer>>, reports: seq<map<string, WgStat>>, k: nat)
    requires Unique(before, PeerKey) && |after| == |before|
    requires forall i | 0 <= i < |before| :: after[i] == SetPeer(users, before[i])
    requires SyncRun(trace, reports) && k < |trace| && trace[0] == PushedAll(after, Flips(users, before), ok)
    requires forall p | p in trace[0] && p.userId == userId :: p.rx >= p.rxBase && p.tx >= p.txBase
    ensures |trace[k]| == |trace[0]|
    ensures UserBytes(trace[k], userId) + ForgetsAll(Flips(users, before), ok, userId) ==
            UserBytes(after, userId) + Gain(trace[0], trace[k], userId)
  {
    FlipsStored(users, before, after);
    PushesForget(after, Flips(users, before), ok, userId);
    RunGrows(trace, reports, k);
    forall i | 0 <= i < |trace[0]| && trace[0][i].userId == userId
      ensures trace[0][i].rx >= trace[0][i].rxBase && trace[0][i].tx >= trace[0][i].txBase
    {
      assert trace[0][i] in trace[0];
    }
    GainOnTop(trace[0], trace[k], userId);
  }
}
