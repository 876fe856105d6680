/** Traffic accounting and policy enforcement (internal/panel/accounting.go). */
module Accounting {
  import opened Wrappers
  import opened Lists
  import opened Entities
  import opened Subscriptions

  function NonNegative(v: int): nat {
    if v < 0 then 0 else v
  }

  // ---------- WireGuard counters ----------

  datatype WgStat = WgStat(latestHandshake: int, rx: int, tx: int)

  /** Key of a runtime report: nodeId|publicKey. */
  function StatKey(p: Peer): string {
    p.nodeId + "|" + p.publicKey
  }

  function CountPeer(p: Peer, seen: map<string, WgStat>): Peer {
    if StatKey(p) in seen then p.(rx := seen[StatKey(p)].rx, tx := seen[StatKey(p)].tx) else p
  }

  /** Counters moved or a handshake within 180 seconds, on an enabled peer. */
  predicate PeerActive(p: Peer, seen: map<string, WgStat>, unixNow: int) {
    && StatKey(p) in seen && p.enabled
    && (var x := seen[StatKey(p)];
        x.rx > p.rx || x.tx > p.tx || (x.latestHandshake > 0 && unixNow - x.latestHandshake <= 180))
  }

  /** Bytes of a peer since its baseline. */
  function PeerBytes(p: Peer): nat {
    NonNegative(p.rx - p.rxBase) + NonNegative(p.tx - p.txBase)
  }

  function UserBytes(peers: seq<Peer>, userId: string): nat {
    if peers == [] then 0
    else UserBytes(peers[..|peers| - 1], userId) +
         (if peers[|peers| - 1].userId == userId then PeerBytes(peers[|peers| - 1]) else 0)
  }

  predicate UserActive(peers: seq<Peer>, seen: map<string, WgStat>, unixNow: int, userId: string) {
    exists p :: p in peers && p.userId == userId && PeerActive(p, seen, unixNow)
  }

  function CountUser(u: User, peers: seq<Peer>, active: bool, now: Time): User {
    var v := u.(wireguardBytes := UserBytes(peers, u.id), used := UserBytes(peers, u.id) + u.xrayBytes);
    if active then v.(lastOnlineAt := now, online := true) else v
  }

  // ---------- the same in numbers ----------

  /** Received and sent bytes of the user's peers above their baselines, negative differences left out. */
  ghost function SumPeers(peers: seq<Peer>, userId: string): int {
    if peers == [] then 0
    else
      var p := peers[|peers| - 1];
      SumPeers(peers[..|peers| - 1], userId) +
      (if p.userId != userId then 0
       else (if p.rx > p.rxBase then p.rx - p.rxBase else 0) + (if p.tx > p.txBase then p.tx - p.txBase else 0))
  }

  lemma {:induction false} UserBytesIsSum(peers: seq<Peer>, userId: string)
    ensures UserBytes(peers, userId) == SumPeers(peers, userId)
  {
    if peers != [] { UserBytesIsSum(peers[..|peers| - 1], userId); }
  }

  /** An enabled peer of the user was reported with a counter that rose or with a handshake of the last 180 seconds. */
  ghost predicate Heard(peers: seq<Peer>, seen: map<string, WgStat>, unixNow: int, userId: string) {
    exists p | p in peers :: p.userId == userId && p.enabled && exists x ::
      && p.nodeId + "|" + p.publicKey in seen && x == seen[p.nodeId + "|" + p.publicKey]
      && (p.rx < x.rx || p.tx < x.tx || (0 < x.latestHandshake && unixNow <= x.latestHandshake + 180))
  }

  /** What one sync does to a peer: the counters that its node reported under its key. */
  ghost predicate Metered(p: Peer, q: Peer, seen: map<string, WgStat>) {
    var key := p.nodeId + "|" + p.publicKey;
    && q == p.(rx := q.rx, tx := q.tx)
    && (if key in seen then q.rx == seen[key].rx && q.tx == seen[key].tx else q == p)
  }

  /** What one sync does to a user. */
  ghost predicate Counted(u: User, v: User, bytes: int, heard: bool, now: Time) {
    v == u.(wireguardBytes := bytes, used := bytes + u.xrayBytes, online := u.online || heard,
            lastOnlineAt := if heard then now else u.lastOnlineAt)
  }

  lemma CountedExact(u: User, before: seq<Peer>, peers: seq<Peer>, seen: map<string, WgStat>, now: Time, unixNow: int)
    ensures Counted(u, CountUser(u, peers, UserActive(before, seen, unixNow, u.id), now), SumPeers(peers, u.id),
                    Heard(before, seen, unixNow, u.id), now)
  {
    UserBytesIsSum(peers, u.id);
  }

  method CountPeers(st: State, seen: map<string, WgStat>, unixNow: int) returns (peers: seq<Peer>, active: set<string>)
    ensures |peers| == |st.peers| && forall j | 0 <= j < |peers| :: peers[j] == CountPeer(st.peers[j], seen)
    ensures forall id :: id in active <==> UserActive(st.peers, seen, unixNow, id)
  {
    peers := st.peers;
    active := {};
    for i := 0 to |st.peers|
      invariant |peers| == |st.peers|
      invariant forall j | 0 <= j < i :: peers[j] == CountPeer(st.peers[j], seen)
      invariant forall j | i <= j < |peers| :: peers[j] == st.peers[j]
      invariant forall id :: id in active <==> UserActive(st.peers[..i], seen, unixNow, id)
    {
      var p := peers[i];
      assert st.peers[..i + 1] == st.peers[..i] + [p];
      if StatKey(p) in seen {
        var x := seen[StatKey(p)];
        if PeerActive(p, seen, unixNow) {
          active := active + {p.userId};
        }
        peers := peers[i := p.(rx := x.rx, tx := x.tx)];
      }
    }
    assert st.peers[..|st.peers|] == st.peers;
  }

  method TotalBytes(peers: seq<Peer>, userId: string) returns (total: nat)
    ensures total == UserBytes(peers, userId)
  {
    total := 0;
    for k := 0 to |peers|
      invariant total == UserBytes(peers[..k], userId)
    {
      assert peers[..k + 1][..k] == peers[..k];
      if peers[k].userId == userId {
        total := total + NonNegative(peers[k].rx - peers[k].rxBase) + NonNegative(peers[k].tx - peers[k].txBase);
      }
    }
    assert peers[..|peers|] == peers;
  }

  /** The store update of syncWireGuard; the agents' reports come in as `seen`. */
  method SyncWireGuard(st: State, seen: map<string, WgStat>, now: Time, unixNow: int) returns (next: State)
    ensures next == st.(peers := next.peers, users := next.users)
    ensures |next.peers| == |st.peers| && |next.users| == |st.users|
    ensures forall i | 0 <= i < |st.peers| :: next.peers[i] == CountPeer(st.peers[i], seen)
    ensures forall i | 0 <= i < |st.peers| :: Metered(st.peers[i], next.peers[i], seen)
    ensures forall i | 0 <= i < |st.users| :: next.users[i] ==
              CountUser(st.users[i], next.peers, UserActive(st.peers, seen, unixNow, st.users[i].id), now)
    ensures forall i | 0 <= i < |st.users| ::
              Counted(st.users[i], next.users[i], SumPeers(next.peers, st.users[i].id),
                      Heard(st.peers, seen, unixNow, st.users[i].id), now)
    ensures SameReferences(st, next)
  {
    var peers, active := CountPeers(st, seen, unixNow);
    var users := st.users;
    for i := 0 to |st.users|
      invariant |users| == |st.users|
      invariant forall j | 0 <= j < i :: users[j] ==
                  CountUser(st.users[j], peers, UserActive(st.peers, seen, unixNow, st.users[j].id), now)
      invariant forall j | i <= j < |users| :: users[j] == st.users[j]
    {
      var u := users[i];
      var total := TotalBytes(peers, u.id);
      u := u.(wireguardBytes := total, used := total + u.xrayBytes);
      if users[i].id in active {
        u := u.(lastOnlineAt := now, online := true);
      }
      users := users[i := u];
    }
    forall i | 0 <= i < |users|
      ensures Counted(st.users[i], users[i], SumPeers(peers, st.users[i].id),
                      Heard(st.peers, seen, unixNow, st.users[i].id), now)
    {
      CountedExact(st.users[i], st.peers, peers, seen, now, unixNow);
    }
    next := st.(peers := peers, users := users);
  }

  // ---------- Xray counters ----------

  datatype XrayStat = XrayStat(email: string, uplink: int, downlink: int)

  /** The map emailToUser: a later binding with the same label wins. */
  function EmailMap(clients: seq<Client>): map<string, string> {
    if clients == [] then map[]
    else
      var c := clients[|clients| - 1];
      var m := EmailMap(clients[..|clients| - 1]);
      if c.email == "" then m else m[c.email := c.userId]
  }

  /** The user a report counts for; "" when it counts for nobody. */
  function Payee(emails: map<string, string>, x: XrayStat): string {
    if x.email in emails then emails[x.email] else ""
  }

  function Bytes(x: XrayStat): nat {
    NonNegative(x.uplink) + NonNegative(x.downlink)
  }

  function Delta(emails: map<string, string>, reports: seq<XrayStat>, userId: string): nat {
    if reports == [] then 0
    else Delta(emails, reports[..|reports| - 1], userId) +
         (if userId != "" && Payee(emails, reports[|reports| - 1]) == userId then Bytes(reports[|reports| - 1]) else 0)
  }

  const ONLINE_WINDOW := 90_000_000_000

  function ChargeUser(u: User, delta: nat, now: Time): User {
    var v := if delta > 0 then u.(xrayBytes := u.xrayBytes + delta, lastOnlineAt := now, online := true)
             else
               var online := u.lastOnlineAt != 0 && now - u.lastOnlineAt <= ONLINE_WINDOW;
               u.(online := online, onlineIPs := if online then u.onlineIPs else 0);
    v.(used := v.wireguardBytes + v.xrayBytes)
  }

  /** What the agents answer, by node; None when a request fails. */
  type Answers = string -> Option<seq<XrayStat>>

  function AnswerOf(n: Node, answers: Answers): seq<XrayStat> {
    if !n.enabled then [] else match answers(n.id) case None => [] case Some(xs) => xs
  }

  /** The reports that syncXrayTraffic reads: those of enabled nodes that answered, node by node. */
  function Reported(nodes: seq<Node>, answers: Answers): seq<XrayStat> {
    if nodes == [] then [] else Reported(nodes[..|nodes| - 1], answers) + AnswerOf(nodes[|nodes| - 1], answers)
  }

  method Gather(nodes: seq<Node>, answers: Answers) returns (reports: seq<XrayStat>)
    ensures reports == Reported(nodes, answers)
  {
    reports := [];
    for i := 0 to |nodes|
      invariant reports == Reported(nodes[..i], answers)
    {
      assert nodes[..i + 1][..i] == nodes[..i];
      if !nodes[i].enabled {
        continue;
      }
      var resp := answers(nodes[i].id);
      if resp == None {
        continue;
      }
      reports := reports + resp.value;
    }
    assert nodes[..|nodes|] == nodes;
  }

  /** The map from labels to users. */
  method Emails(clients: seq<Client>) returns (emails: map<string, string>)
    ensures emails == EmailMap(clients)
  {
    emails := map[];
    for i := 0 to |clients|
      invariant emails == EmailMap(clients[..i])
    {
      assert clients[..i + 1][..i] == clients[..i];
      if clients[i].email != "" {
        emails := emails[clients[i].email := clients[i].userId];
      }
    }
    assert clients[..|clients|] == clients;
  }

  /** The bytes by user. */
  method Deltas(emails: map<string, string>, reports: seq<XrayStat>) returns (deltas: map<string, nat>)
    ensures forall id :: Delta(emails, reports, id) == if id in deltas then deltas[id] else 0
  {
    deltas := map[];
    for i := 0 to |reports|
      invariant forall id :: Delta(emails, reports[..i], id) == if id in deltas then deltas[id] else 0
    {
      assert reports[..i + 1][..i] == reports[..i];
      var id := Payee(emails, reports[i]);
      if id == "" {
        continue;
      }
      deltas := deltas[id := (if id in deltas then deltas[id] else 0) + Bytes(reports[i])];
    }
    assert reports[..|reports|] == reports;
  }

  /** syncXrayTraffic */
  method SyncXray(st: State, answers: Answers, now: Time) returns (next: State)
    ensures next == st.(users := next.users) && |next.users| == |st.users|
    ensures forall i | 0 <= i < |st.users| :: next.users[i] ==
              ChargeUser(st.users[i], Delta(EmailMap(st.clients), Reported(st.nodes, answers), st.users[i].id), now)
    ensures forall i | 0 <= i < |st.users| ::
              Charged(st.users[i], next.users[i], SumNodes(st.nodes, answers, PaidBy(st.clients, st.users[i].id)), now)
    ensures SameReferences(st, next)
  {
    var reports := Gather(st.nodes, answers);
    var emails := Emails(st.clients);
    var deltas := Deltas(emails, reports);
    var users := st.users;
    for i := 0 to |st.users|
      invariant |users| == |st.users|
      invariant forall j | 0 <= j < i ::
                users[j] == ChargeUser(st.users[j], Delta(emails, reports, st.users[j].id), now)
      invariant forall j | i <= j < |users| :: users[j] == st.users[j]
    {
      var id := users[i].id;
      users := users[i := ChargeUser(users[i], if id in deltas then deltas[id] else 0, now)];
    }
    forall i | 0 <= i < |users|
      ensures Charged(st.users[i], users[i], SumNodes(st.nodes, answers, PaidBy(st.clients, st.users[i].id)), now)
    {
      ChargedExact(st, answers, st.users[i], now);
    }
    next := st.(users := users);
  }

  function TotalXray(users: seq<User>): int {
    if users == [] then 0 else users[0].xrayBytes + TotalXray(users[1..])
  }

  /** Everything reported for users that exist. */
  function Credited(emails: map<string, string>, reports: seq<XrayStat>, users: seq<User>): nat {
    if reports == [] then 0
    else
      var x := reports[|reports| - 1];
      Credited(emails, reports[..|reports| - 1], users) +
      (if Payee(emails, x) != "" && Find(users, UserKey, Payee(emails, x)).Some? then Bytes(x) else 0)
  }

  function SumDeltas(emails: map<string, string>, reports: seq<XrayStat>, users: seq<User>): nat {
    if users == [] then 0 else Delta(emails, reports, users[0].id) + SumDeltas(emails, reports, users[1..])
  }

  /** How often one payee occurs among the users: at most once when identifiers are unique. */
  lemma {:induction false} OnePayee(users: seq<User>, id: string, b: nat) returns (total: nat)
    requires Unique(users, UserKey)
    ensures total == SumFor(users, id, b)
    ensures total == if Find(users, UserKey, id).Some? then b else 0
  {
    if users == [] {
      total := 0;
    } else {
      UniqueTail(users, UserKey);
      var rest := OnePayee(users[1..], id, b);
      total := (if users[0].id == id then b else 0) + rest;
    }
  }

  function SumFor(users: seq<User>, id: string, b: nat): nat {
    if users == [] then 0 else (if users[0].id == id then b else 0) + SumFor(users[1..], id, b)
  }

  lemma {:induction false} SumStep(emails: map<string, string>, reports: seq<XrayStat>, users: seq<User>)
    requires reports != [] && forall u | u in users :: u.id != ""
    ensures var x := reports[|reports| - 1];
            SumDeltas(emails, reports, users) ==
            SumDeltas(emails, reports[..|reports| - 1], users) + SumFor(users, Payee(emails, x), Bytes(x))
  {
    if users != [] {
      assert users[0] in users && forall u | u in users[1..] :: u in users;
      SumStep(emails, reports, users[1..]);
    }
  }

  lemma {:induction false} SumIsCredited(emails: map<string, string>, reports: seq<XrayStat>, users: seq<User>)
    requires Unique(users, UserKey) && forall u | u in users :: u.id != ""
    ensures SumDeltas(emails, reports, users) == Credited(emails, reports, users)
  {
    if reports == [] {
      NoReports(emails, users);
    } else {
      var x := reports[|reports| - 1];
      SumIsCredited(emails, reports[..|reports| - 1], users);
      SumStep(emails, reports, users);
      var total := OnePayee(users, Payee(emails, x), Bytes(x));
    }
  }

  lemma {:induction false} NoReports(emails: map<string, string>, users: seq<User>)
    ensures SumDeltas(emails, [], users) == 0
  {
    if users != [] { NoReports(emails, users[1..]); }
  }

  lemma {:induction false} TotalAfterCharge(emails: map<string, string>, reports: seq<XrayStat>, a: seq<User>,
                                            b: seq<User>)
    requires |a| == |b|
    requires forall i | 0 <= i < |a| :: b[i].xrayBytes == a[i].xrayBytes + Delta(emails, reports, a[i].id)
    ensures TotalXray(b) == TotalXray(a) + SumDeltas(emails, reports, a)
  {
    if a != [] { TotalAfterCharge(emails, reports, a[1..], b[1..]); }
  }

  // ---------- who pays, over the stored bindings ----------

  /** The last binding that carries the label belongs to the user. */
  ghost predicate Pays(clients: seq<Client>, email: string, userId: string) {
    && email != "" && userId != ""
    && exists i | 0 <= i < |clients| :: clients[i].email == email && clients[i].userId == userId &&
         forall j | i < j < |clients| :: clients[j].email != email
  }

  lemma {:induction false} EmailMapPays(clients: seq<Client>, email: string, userId: string)
    requires userId != ""
    ensures email in EmailMap(clients) && EmailMap(clients)[email] == userId <==> Pays(clients, email, userId)
  {
    if clients != [] {
      var init, c := clients[..|clients| - 1], clients[|clients| - 1];
      EmailMapPays(init, email, userId);
      if c.email == email != "" {
        assert clients[|clients| - 1].email == email;
      } else {
        PaysInit(clients, email, userId);
      }
    }
  }

  lemma PaysInit(clients: seq<Client>, email: string, userId: string)
    requires clients != [] && (email == "" || clients[|clients| - 1].email != email)
    ensures Pays(clients, email, userId) <==> Pays(clients[..|clients| - 1], email, userId)
  {
    var init := clients[..|clients| - 1];
    if Pays(init, email, userId) {
      var i :| 0 <= i < |init| && init[i].email == email && init[i].userId == userId &&
        forall j | i < j < |init| :: init[j].email != email;
      assert clients[i].email == email && forall j | i < j < |clients| :: clients[j].email != email;
    }
    if Pays(clients, email, userId) {
      var i :| 0 <= i < |clients| && clients[i].email == email && clients[i].userId == userId &&
        forall j | i < j < |clients| :: clients[j].email != email;
      assert init[i].email == email && forall j | i < j < |init| :: init[j].email != email;
    }
  }

  /** Counters of the reports whose label counts, negative ones left out. */
  ghost function SumReports(reports: seq<XrayStat>, counts: string -> bool): int {
    if reports == [] then 0
    else
      var x := reports[|reports| - 1];
      SumReports(reports[..|reports| - 1], counts) +
      (if counts(x.email) then (if x.uplink > 0 then x.uplink else 0) + (if x.downlink > 0 then x.downlink else 0)
       else 0)
  }

  /** The same over nodes: one that is disabled or does not answer adds nothing. */
  ghost function SumNodes(nodes: seq<Node>, answers: Answers, counts: string -> bool): int {
    if nodes == [] then 0
    else
      var n := nodes[|nodes| - 1];
      SumNodes(nodes[..|nodes| - 1], answers, counts) +
      (if n.enabled && answers(n.id).Some? then SumReports(answers(n.id).value, counts) else 0)
  }

  lemma {:induction false} SumConcat(a: seq<XrayStat>, b: seq<XrayStat>, counts: string -> bool)
    ensures SumReports(a + b, counts) == SumReports(a, counts) + SumReports(b, counts)
  {
    if b == [] {
      assert a + b == a;
    } else {
      var init := b[..|b| - 1];
      assert (a + b)[..|a + b| - 1] == a + init;
      SumConcat(a, init, counts);
    }
  }

  lemma {:induction false} SumIsByNodes(nodes: seq<Node>, answers: Answers, counts: string -> bool)
    ensures SumReports(Reported(nodes, answers), counts) == SumNodes(nodes, answers, counts)
  {
    if nodes != [] {
      var init, n := nodes[..|nodes| - 1], nodes[|nodes| - 1];
      SumIsByNodes(init, answers, counts);
      SumConcat(Reported(init, answers), AnswerOf(n, answers), counts);
    }
  }

  ghost function PaidBy(clients: seq<Client>, userId: string): string -> bool {
    (email: string) => Pays(clients, email, userId)
  }

  /** Some user that exists pays. */
  ghost function PaidByOneOf(clients: seq<Client>, users: seq<User>): string -> bool {
    (email: string) => exists u :: u in users && Pays(clients, email, u.id)
  }

  lemma {:induction false} DeltaIsSum(clients: seq<Client>, reports: seq<XrayStat>, userId: string)
    ensures Delta(EmailMap(clients), reports, userId) == SumReports(reports, PaidBy(clients, userId))
  {
    if reports != [] {
      DeltaIsSum(clients, reports[..|reports| - 1], userId);
      if userId != "" { EmailMapPays(clients, reports[|reports| - 1].email, userId); }
    }
  }

  lemma PayeeExists(clients: seq<Client>, users: seq<User>, x: XrayStat)
    requires forall u | u in users :: u.id != ""
    ensures Payee(EmailMap(clients), x) != "" && Find(users, UserKey, Payee(EmailMap(clients), x)).Some? <==>
            PaidByOneOf(clients, users)(x.email)
  {
    var id := Payee(EmailMap(clients), x);
    if id != "" { EmailMapPays(clients, x.email, id); }
    forall u | u in users && Pays(clients, x.email, u.id) ensures u.id == id { EmailMapPays(clients, x.email, u.id); }
  }

  lemma {:induction false} CreditedIsSum(clients: seq<Client>, reports: seq<XrayStat>, users: seq<User>)
    requires forall u | u in users :: u.id != ""
    ensures Credited(EmailMap(clients), reports, users) == SumReports(reports, PaidByOneOf(clients, users))
  {
    if reports != [] {
      CreditedIsSum(clients, reports[..|reports| - 1], users);
      PayeeExists(clients, users, reports[|reports| - 1]);
    }
  }

  /** What one sync does to a user for whom `bytes` were reported. */
  ghost predicate Charged(u: User, v: User, bytes: int, now: Time) {
    && bytes >= 0
    && v.online == (bytes > 0 || (u.lastOnlineAt != 0 && now - u.lastOnlineAt <= 90_000_000_000))
    && v == u.(xrayBytes := u.xrayBytes + bytes, used := u.wireguardBytes + u.xrayBytes + bytes, online := v.online,
               lastOnlineAt := if bytes > 0 then now else u.lastOnlineAt,
               onlineIPs := if v.online then u.onlineIPs else 0)
  }

  lemma ChargedExact(st: State, answers: Answers, u: User, now: Time)
    ensures Charged(u, ChargeUser(u, Delta(EmailMap(st.clients), Reported(st.nodes, answers), u.id), now),
                    SumNodes(st.nodes, answers, PaidBy(st.clients, u.id)), now)
  {
    DeltaIsSum(st.clients, Reported(st.nodes, answers), u.id);
    SumIsByNodes(st.nodes, answers, PaidBy(st.clients, u.id));
  }

  /** Conservation: one Xray sync raises the users' totals by exactly the non-negative counters that enabled nodes
      reported for labels whose last binding belongs to a user that exists. */
  lemma XrayTrafficConserved(st: State, answers: Answers, next: seq<User>, now: Time)
    requires Unique(st.users, UserKey) && forall u | u in st.users :: u.id != ""
    requires |next| == |st.users|
    requires forall i | 0 <= i < |next| ::
               Charged(st.users[i], next[i], SumNodes(st.nodes, answers, PaidBy(st.clients, st.users[i].id)), now)
    ensures TotalXray(next) == TotalXray(st.users) + SumNodes(st.nodes, answers, PaidByOneOf(st.clients, st.users))
  {
    var reports := Reported(st.nodes, answers);
    SumIsByNodes(st.nodes, answers, PaidByOneOf(st.clients, st.users));
    CreditedIsSum(st.clients, reports, st.users);
    SumIsCredited(EmailMap(st.clients), reports, st.users);
    forall i | 0 <= i < |next|
      ensures next[i].xrayBytes == st.users[i].xrayBytes + Delta(EmailMap(st.clients), reports, st.users[i].id)
    {
      ChargedExact(st, answers, st.users[i], now);
    }
    TotalAfterCharge(EmailMap(st.clients), reports, st.users, next);
  }

  /** Of several bindings with one label the last decides. */
  lemma SharedLabel(clients: seq<Client>, i: nat, email: string, userId: string)
    requires i < |clients| && clients[i].email == email != ""
    requires forall j | i < j < |clients| :: clients[j].email != email
    ensures Pays(clients, email, userId) <==> userId != "" && clients[i].userId == userId
  {
  }

  lemma {:induction false} LastWith(clients: seq<Client>, email: string) returns (i: nat)
    requires exists c :: c in clients && c.email == email
    ensures i < |clients| && clients[i].email == email && forall j | i < j < |clients| :: clients[j].email != email
  {
    i := |clients| - 1;
    if clients[i].email != email { i := LastWith(clients[..i], email); }
  }

  /** A label whose bindings all belong to one user is paid by that user, whichever binding is the last. */
  lemma OwnLabel(clients: seq<Client>, email: string, userId: string)
    requires email != "" && userId != "" && forall c | c in clients && c.email == email :: c.userId == userId
    ensures forall id :: Pays(clients, email, id) <==> id == userId && exists c :: c in clients && c.email == email
  {
    if exists c :: c in clients && c.email == email {
      var i := LastWith(clients, email);
      assert clients[i] in clients;
      forall id ensures Pays(clients, email, id) <==> id == userId { SharedLabel(clients, i, email, id); }
    }
  }

  // ---------- scheduled resets ----------

  /** Time to reset, as processTrafficResets decides. */
  predicate Due(st: State, u: User, now: Time) {
    EffectiveResetDays(st, u) > 0 && u.nextResetAt != 0 && now >= u.nextResetAt
  }

  predicate Reschedulable(st: State, now: Time) {
    forall u | u in st.users && Due(st, u, now) :: LoopStops(u.nextResetAt, EffectiveResetDays(st, u), now)
  }

  function ResetUser(st: State, u: User, now: Time): User
    requires Due(st, u, now) ==> LoopStops(u.nextResetAt, EffectiveResetDays(st, u), now)
  {
    var days := EffectiveResetDays(st, u);
    if days <= 0 then u.(nextResetAt := 0)
    else if u.nextResetAt == 0 then u.(nextResetAt := now + Step(days))
    else if now < u.nextResetAt then u
    else u.(xrayBytes := 0, wireguardBytes := 0, used := 0,
            status := if u.status == "quota-exceeded" then "active" else u.status,
            nextResetAt := AdvanceResetAt(u.nextResetAt, days, now), updatedAt := now)
  }

  function Rebase(p: Peer): Peer {
    p.(rxBase := p.rx, txBase := p.tx)
  }

  function DueUsers(st: State, now: Time): set<string> {
    set u | u in st.users && Due(st, u, now) :: u.id
  }

  /** The body of the loop over users, with its own copy of the advance loop. */
  method ResetOne(st: State, u: User, now: Time) returns (v: User, due: bool)
    requires Due(st, u, now) ==> LoopStops(u.nextResetAt, EffectiveResetDays(st, u), now)
    ensures v == ResetUser(st, u, now) && due == Due(st, u, now)
  {
    var days := EffectiveResetDays(st, u);
    if days <= 0 {
      return u.(nextResetAt := 0), false;
    }
    if u.nextResetAt == 0 {
      return u.(nextResetAt := now + Step(days)), false;
    }
    if now < u.nextResetAt {
      return u, false;
    }
    var t := u.nextResetAt;
    var step := Step(days);
    while t <= now
      invariant t > now || step > 0
      invariant NextAfter(t, step, now) == AdvanceResetAt(u.nextResetAt, days, now)
      decreases now - t
    {
      NextAfterStep(t, step, now);
      t := t + step;
    }
    v := u.(xrayBytes := 0, wireguardBytes := 0, used := 0,
            status := if u.status == "quota-exceeded" then "active" else u.status,
            nextResetAt := t, updatedAt := now);
    due := true;
  }

  /** processTrafficResets */
  method ProcessResets(st: State, now: Time) returns (next: State)
    requires Reschedulable(st, now)
    ensures next == st.(users := next.users, peers := next.peers)
    ensures |next.users| == |st.users| && |next.peers| == |st.peers|
    ensures forall i | 0 <= i < |st.users| :: next.users[i] == ResetUser(st, st.users[i], now)
    ensures forall j | 0 <= j < |st.peers| ::
              next.peers[j] == if st.peers[j].userId in DueUsers(st, now) then Rebase(st.peers[j]) else st.peers[j]
    ensures SameReferences(st, next)
  {
    var users, peers := st.users, st.peers;
    ghost var due: set<string> := {};
    for i := 0 to |st.users|
      invariant |users| == |st.users| && |peers| == |st.peers|
      invariant forall j | 0 <= j < i :: users[j] == ResetUser(st, st.users[j], now)
      invariant forall j | i <= j < |users| :: users[j] == st.users[j]
      invariant due == set j | 0 <= j < i && Due(st, st.users[j], now) :: st.users[j].id
      invariant forall j | 0 <= j < |peers| ::
                  peers[j] == if st.peers[j].userId in due then Rebase(st.peers[j]) else st.peers[j]
    {
      assert st.users[i] in st.users;
      var v, reset := ResetOne(st, users[i], now);
      if reset {
        due := due + {users[i].id};
        peers := RebaseAll(peers, users[i].id);
      }
      users := users[i := v];
    }
    assert due == DueUsers(st, now);
    next := st.(users := users, peers := peers);
    ResetsKeepReferences(st, next, now);
  }

  lemma ResetsKeepReferences(st: State, next: State, now: Time)
    requires Reschedulable(st, now)
    requires next == st.(users := next.users, peers := next.peers)
    requires |next.users| == |st.users| && |next.peers| == |st.peers|
    requires forall i | 0 <= i < |st.users| :: next.users[i] == ResetUser(st, st.users[i], now)
    requires forall j | 0 <= j < |st.peers| :: next.peers[j] == st.peers[j] || next.peers[j] == Rebase(st.peers[j])
    ensures SameReferences(st, next)
  {
  }

  method RebaseAll(peers: seq<Peer>, userId: string) returns (r: seq<Peer>)
    ensures |r| == |peers|
    ensures forall j | 0 <= j < |r| :: r[j] == if peers[j].userId == userId then Rebase(peers[j]) else peers[j]
  {
    r := peers;
    for j := 0 to |peers|
      invariant |r| == |peers|
      invariant forall k | 0 <= k < j :: r[k] == if peers[k].userId == userId then Rebase(peers[k]) else peers[k]
      invariant forall k | j <= k < |r| :: r[k] == peers[k]
    {
      if r[j].userId == userId {
        r := r[j := Rebase(r[j])];
      }
    }
  }

  // ---------- enforcement ----------

  /** The switch of enforceUserPolicies. */
  function EnforceUser(st: State, u: User, now: Time): User {
    var v := u.(used := u.wireguardBytes + u.xrayBytes);
    var limit := EffectiveUserLimit(st, v);
    var status := if u.expiresAt != 0 && now > u.expiresAt then "expired"
                  else if limit > 0 && v.used >= limit then "quota-exceeded"
                  else if u.status == "quota-exceeded" then "active"
                  else u.status;
    if status != u.status then v.(status := status, updatedAt := now) else v
  }

  function EnforceUsers(st: State, xs: seq<User>, now: Time): (r: seq<User>)
    ensures |r| == |xs| && forall i | 0 <= i < |xs| :: r[i] == EnforceUser(st, xs[i], now)
  {
    if xs == [] then [] else [EnforceUser(st, xs[0], now)] + EnforceUsers(st, xs[1..], now)
  }

  /** Enabled iff the user is active; bindings of unknown users keep their flag. */
  function Desired(users: seq<User>, userId: string, current: bool): bool {
    match Find(users, UserKey, userId) case None => current case Some(u) => u.status == "active"
  }

  function SetPeer(users: seq<User>, p: Peer): Peer {
    p.(enabled := Desired(users, p.userId, p.enabled))
  }

  /** The peers whose flag flips, in order and with their new flag. */
  function Flips(users: seq<User>, peers: seq<Peer>): seq<Peer> {
    if peers == [] then []
    else
      var p := peers[|peers| - 1];
      Flips(users, peers[..|peers| - 1]) + (if SetPeer(users, p) != p then [SetPeer(users, p)] else [])
  }

  function StatusChanged(st: State, now: Time): set<string> {
    set u | u in st.users && EnforceUser(st, u, now).status != u.status :: u.id
  }

  /** A binding whose flag flips or whose user changed status, on an inbound that exists. */
  predicate Redeploys(st: State, users: seq<User>, c: Client, changed: set<string>) {
    && Find(users, UserKey, c.userId).Some? && InboundOf(st, c.inboundId).Some?
    && (Desired(users, c.userId, c.enabled) != c.enabled || c.userId in changed)
  }

  function RedeployNodes(st: State, users: seq<User>, clients: seq<Client>, changed: set<string>): set<string> {
    set c | c in clients && Redeploys(st, users, c, changed) :: InboundOf(st, c.inboundId).value.nodeId
  }

  /** The body of the loop over users. */
  method EnforceOne(st: State, was: User, now: Time) returns (u: User, flipped: bool)
    ensures u == EnforceUser(st, was, now) && flipped == (u.status != was.status)
  {
    var used := was.wireguardBytes + was.xrayBytes;
    u := was.(used := used);
    var limit := EffectiveUserLimit(st, u);
    if u.expiresAt != 0 && now > u.expiresAt {
      u := u.(status := "expired");
    } else if limit > 0 && used >= limit {
      u := u.(status := "quota-exceeded");
    } else if u.status == "quota-exceeded" {
      u := u.(status := "active");
    }
    flipped := was.status != u.status;
    if flipped {
      u := u.(updatedAt := now);
    }
  }

  method EnforceStatuses(st: State, now: Time) returns (users: seq<User>, changed: set<string>)
    ensures users == EnforceUsers(st, st.users, now)
    ensures changed == StatusChanged(st, now)
  {
    users := st.users;
    changed := {};
    for i := 0 to |st.users|
      invariant |users| == |st.users|
      invariant forall j | 0 <= j < i :: users[j] == EnforceUser(st, st.users[j], now)
      invariant forall j | i <= j < |users| :: users[j] == st.users[j]
      invariant changed == set j | 0 <= j < i && EnforceUser(st, st.users[j], now).status != st.users[j].status ::
                             st.users[j].id
    {
      var u, flipped := EnforceOne(st, users[i], now);
      if flipped {
        changed := changed + {u.id};
      }
      users := users[i := u];
    }
    assert changed == StatusChanged(st, now);
  }

  method EnforceClients(st: State, users: seq<User>, changed: set<string>)
      returns (clients: seq<Client>, nodes: set<string>)
    ensures |clients| == |st.clients|
    ensures forall i | 0 <= i < |st.clients| :: clients[i] ==
              st.clients[i].(enabled := Desired(users, st.clients[i].userId, st.clients[i].enabled))
    ensures nodes == RedeployNodes(st, users, st.clients, changed)
  {
    clients := st.clients;
    nodes := {};
    for i := 0 to |st.clients|
      invariant |clients| == |st.clients|
      invariant forall j | 0 <= j < i :: clients[j] ==
                  st.clients[j].(enabled := Desired(users, st.clients[j].userId, st.clients[j].enabled))
      invariant forall j | i <= j < |clients| :: clients[j] == st.clients[j]
      invariant nodes == RedeployNodes(st, users, st.clients[..i], changed)
    {
      assert st.clients[..i + 1] == st.clients[..i] + [st.clients[i]];
      var u := Find(users, UserKey, clients[i].userId);
      if u.None? {
        continue;
      }
      var x := InboundOf(st, clients[i].inboundId);
      if x.Some? && (clients[i].enabled != (u.value.status == "active") || u.value.id in changed) {
        nodes := nodes + {x.value.nodeId};
      }
      clients := clients[i := clients[i].(enabled := u.value.status == "active")];
    }
    assert st.clients[..|st.clients|] == st.clients;
  }

  lemma FlipsStep(users: seq<User>, peers: seq<Peer>, i: nat)
    requires i < |peers|
    ensures Flips(users, peers[..i + 1]) ==
            Flips(users, peers[..i]) + (if SetPeer(users, peers[i]) != peers[i] then [SetPeer(users, peers[i])] else [])
  {
    assert peers[..i + 1][..i] == peers[..i];
  }

  method EnforcePeers(st: State, users: seq<User>) returns (peers: seq<Peer>, tasks: seq<Peer>)
    ensures |peers| == |st.peers|
    ensures forall i | 0 <= i < |st.peers| :: peers[i] == SetPeer(users, st.peers[i])
    ensures tasks == Flips(users, st.peers)
  {
    peers := st.peers;
    tasks := [];
    for i := 0 to |st.peers|
      invariant |peers| == |st.peers|
      invariant forall j | 0 <= j < i :: peers[j] == SetPeer(users, st.peers[j])
      invariant forall j | i <= j < |peers| :: peers[j] == st.peers[j]
      invariant tasks == Flips(users, st.peers[..i])
    {
      FlipsStep(users, st.peers, i);
      var p := peers[i];
      var u := Find(users, UserKey, p.userId);
      if u.None? {
        continue;
      }
      var desired := u.value.status == "active";
      if p.enabled != desired {
        p := p.(enabled := desired);
        peers := peers[i := p];
        tasks := tasks + [p];
      }
    }
    assert st.peers[..|st.peers|] == st.peers;
  }

  /** The local pass of enforceUserPolicies: statuses, then bindings, then peers; peerTasks is what flipped. */
  method Enforce(st: State, now: Time) returns (next: State, tasks: seq<Peer>, nodes: set<string>)
    ensures next == st.(users := next.users, clients := next.clients, peers := next.peers)
    ensures next.users == EnforceUsers(st, st.users, now)
    ensures |next.clients| == |st.clients| && |next.peers| == |st.peers|
    ensures forall i | 0 <= i < |st.clients| :: next.clients[i] ==
              st.clients[i].(enabled := Desired(next.users, st.clients[i].userId, st.clients[i].enabled))
    ensures forall i | 0 <= i < |st.peers| :: next.peers[i] == SetPeer(next.users, st.peers[i])
    ensures tasks == Flips(next.users, st.peers)
    ensures nodes == RedeployNodes(st, next.users, st.clients, StatusChanged(st, now))
    ensures forall c | c in next.clients && UserOf(next, c.userId).Some? ::
              c.enabled <==> UserOf(next, c.userId).value.status == "active"
    ensures forall p | p in next.peers && UserOf(next, p.userId).Some? ::
              p.enabled <==> UserOf(next, p.userId).value.status == "active"
    ensures SameReferences(st, next)
  {
    var users, changed := EnforceStatuses(st, now);
    var clients, ns := EnforceClients(st, users, changed);
    var peers, ts := EnforcePeers(st, users);
    next, tasks, nodes := st.(users := users, clients := clients, peers := peers), ts, ns;
  }

  // ---------- telling the agents ----------

  /** What the store keeps after one peer task: a refused one is taken back, an accepted enabling starts the counters of
      the peer from zero. */
  function Pushed(peers: seq<Peer>, task: Peer, ok: bool): (r: seq<Peer>)
    ensures |r| == |peers|
  {
    match Find(peers, PeerKey, task.id)
    case None => peers
    case Some(p) =>
      if !ok then Replace(peers, PeerKey, task.id, p.(enabled := !task.enabled))
      else if task.enabled then Replace(peers, PeerKey, task.id, p.(rx := 0, tx := 0, rxBase := 0, txBase := 0))
      else peers
  }

  function PushedAll(peers: seq<Peer>, tasks: seq<Peer>, ok: nat -> bool): (r: seq<Peer>)
    ensures |r| == |peers|
  {
    if tasks == [] then peers
    else Pushed(PushedAll(peers, tasks[..|tasks| - 1], ok), tasks[|tasks| - 1], ok(|tasks| - 1))
  }

  lemma PushedKeeps(peers: seq<Peer>, task: Peer, ok: bool)
    ensures forall i | 0 <= i < |peers| :: var q := Pushed(peers, task, ok)[i];
              q == peers[i].(enabled := q.enabled, rx := q.rx, tx := q.tx, rxBase := q.rxBase, txBase := q.txBase)
  {
  }

  /** The remote part of enforceUserPolicies; `ok` says which requests the agents accept. */
  method PushTasks(st: State, tasks: seq<Peer>, ok: nat -> bool) returns (next: State)
    ensures next == st.(peers := PushedAll(st.peers, tasks, ok))
    ensures SameReferences(st, next)
  {
    var peers := st.peers;
    for k := 0 to |tasks|
      invariant peers == PushedAll(st.peers, tasks[..k], ok)
      invariant SameReferences(st, st.(peers := peers))
    {
      assert tasks[..k + 1][..k] == tasks[..k];
      PushedKeeps(peers, tasks[k], ok(k));
      var p := Find(peers, PeerKey, tasks[k].id);
      if p == None {
        continue;
      }
      if !ok(k) {
        peers := Replace(peers, PeerKey, tasks[k].id, p.value.(enabled := !tasks[k].enabled));
        continue;
      }
      if tasks[k].enabled {
        peers := Replace(peers, PeerKey, tasks[k].id, p.value.(rx := 0, tx := 0, rxBase := 0, txBase := 0));
      }
    }
    assert tasks[..|tasks|] == tasks;
    next := st.(peers := peers);
  }
}
