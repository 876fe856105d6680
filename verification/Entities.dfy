/** Text helpers of the Go standard library that the validators rely on, over ASCII letters and blanks. */
module Text {
  predicate IsBlank(c: char) {
    c == ' ' || c == '\t' || c == '\n' || c == '\r' || c == '\U{0B}' || c == '\U{0C}'
  }

  function TrimLeft(s: string): string {
    if s != [] && IsBlank(s[0]) then TrimLeft(s[1..]) else s
  }

  function TrimRight(s: string): string {
    if s != [] && IsBlank(s[|s| - 1]) then TrimRight(s[..|s| - 1]) else s
  }

  /** strings.TrimSpace */
  function Trim(s: string): string {
    TrimRight(TrimLeft(s))
  }

  function TrimAll(xs: seq<string>): (r: seq<string>)
    ensures |r| == |xs| && forall i | 0 <= i < |xs| :: r[i] == Trim(xs[i])
  {
    seq(|xs|, i requires 0 <= i < |xs| => Trim(xs[i]))
  }

  lemma TrimSolid(s: string)
    requires s != [] && !IsBlank(s[0]) && !IsBlank(s[|s| - 1])
    ensures Trim(s) == s
  {
  }

  function LowerChar(c: char): char {
    if 'A' <= c <= 'Z' then c - 'A' + 'a' else c
  }

  /** strings.ToLower */
  function Lower(s: string): string {
    seq(|s|, i requires 0 <= i < |s| => LowerChar(s[i]))
  }

  /** Outside positions i to j there are only blanks. */
  ghost predicate Core(s: string, i: nat, j: nat) {
    i <= j <= |s| && (forall k | 0 <= k < i :: IsBlank(s[k])) && (forall k | j <= k < |s| :: IsBlank(s[k]))
  }

  /** `t` is `s` without the blanks at both ends. */
  ghost predicate Trimmed(s: string, t: string) {
    && (t == "" || (!IsBlank(t[0]) && !IsBlank(t[|t| - 1])))
    && exists i: nat, j: nat :: Core(s, i, j) && s[i..j] == t
  }

  lemma {:induction false} TrimLeftCuts(s: string) returns (i: nat)
    ensures i <= |s| && TrimLeft(s) == s[i..] && forall k | 0 <= k < i :: IsBlank(s[k])
    ensures i < |s| ==> !IsBlank(s[i])
  {
    i := 0;
    if s != [] && IsBlank(s[0]) {
      i := TrimLeftCuts(s[1..]);
      i := i + 1;
    }
  }

  lemma {:induction false} TrimRightCuts(s: string) returns (j: nat)
    ensures j <= |s| && TrimRight(s) == s[..j] && forall k | j <= k < |s| :: IsBlank(s[k])
    ensures j > 0 ==> !IsBlank(s[j - 1])
  {
    j := |s|;
    if s != [] && IsBlank(s[|s| - 1]) {
      j := TrimRightCuts(s[..|s| - 1]);
      assert s[..|s| - 1][..j] == s[..j];
    }
  }

  lemma CoreInside(s: string, i: nat, j: nat, m: nat, n: nat)
    requires Core(s, i, j) && Core(s, m, n)
    requires i < j ==> !IsBlank(s[i]) && !IsBlank(s[j - 1])
    ensures i < j ==> m <= i && j <= n
  {
  }

  lemma TrimmedOnce(s: string, t: string, u: string)
    requires Trimmed(s, t) && Trimmed(s, u)
    ensures t == u
  {
    var i: nat, j: nat :| Core(s, i, j) && s[i..j] == t;
    var m: nat, n: nat :| Core(s, m, n) && s[m..n] == u;
    assert i < j ==> t[0] == s[i] && t[|t| - 1] == s[j - 1];
    assert m < n ==> u[0] == s[m] && u[|u| - 1] == s[n - 1];
    CoreInside(s, i, j, m, n);
    CoreInside(s, m, n, i, j);
  }

  /** What Trim computes. */
  lemma TrimExact(s: string, t: string)
    ensures t == Trim(s) <==> Trimmed(s, t)
  {
    var i := TrimLeftCuts(s);
    var j := TrimRightCuts(s[i..]);
    assert s[i..i + j] == s[i..][..j] == Trim(s);
    forall k | i + j <= k < |s| ensures IsBlank(s[k]) { assert s[i..][k - i] == s[k]; }
    assert Core(s, i, i + j);
    if Trimmed(s, t) { TrimmedOnce(s, t, Trim(s)); }
  }

  /** What Lower computes: the upper-case letters are 32 below the lower-case ones. */
  lemma LowerExact(s: string, t: string)
    ensures t == Lower(s) <==>
            && |t| == |s|
            && forall i | 0 <= i < |s| ::
                 t[i] as int == if 65 <= s[i] as int <= 90 then s[i] as int + 32 else s[i] as int
  {
    if |t| == |s| && forall i | 0 <= i < |s| ::
      t[i] as int == if 65 <= s[i] as int <= 90 then s[i] as int + 32 else s[i] as int
    {
      assert t == Lower(s);
    }
  }

  lemma TrimTwice(s: string)
    ensures Trim(Trim(s)) == Trim(s) && Trim(Lower(Trim(s))) == Lower(Trim(s))
  {
    TrimExact(s, Trim(s));
    var t := Trim(s);
    if t != "" {
      TrimSolid(t);
      TrimSolid(Lower(t));
    }
  }

  /** strings.HasPrefix */
  predicate HasPrefix(s: string, p: string) {
    p <= s
  }

  /** Two names clash on the panel when EqualFold holds of their trimmed forms. */
  function Fold(s: string): string {
    Lower(Trim(s))
  }
}

/** The records of internal/panel/models.go, reduced to what validation, compilation and accounting read. */
module Entities {
  import opened Wrappers
  import opened Lists

  /** Nanoseconds since Go's zero time; 0 is the time for which IsZero holds. */
  type Time = int

  datatype Node = Node(id: string, name: string, enabled: bool, maintenance: bool, status: string,
                       failureCount: nat, internetInterface: string, agentTokenEnc: string)

  datatype Plan = Plan(id: string, name: string, dataLimit: int, durationDays: int, deviceLimit: int,
                       resetDays: int, enabled: bool)

  datatype User = User(id: string, username: string, status: string, statusReason: string, planId: string,
                       expiresAt: Time, dataLimit: int, used: int, xrayBytes: int, wireguardBytes: int,
                       deviceLimit: int, resetDays: int, lastResetAt: Time, nextResetAt: Time,
                       online: bool, onlineIPs: int, lastOnlineAt: Time, updatedAt: Time)

  /** `settings` stands for the protocol and transport fields that no panel decision reads. */
  datatype Inbound = Inbound(id: string, name: string, protocol: string, nodeId: string, listen: string, port: int,
                             transport: string, tlsMode: string, enabled: bool, status: string, settings: string,
                             realityKey: string, ssPassword: string, createdAt: Time, updatedAt: Time)

  /** A user attached to an inbound. */
  datatype Client = Client(id: string, inboundId: string, userId: string, email: string, credentialEnc: string,
                           enabled: bool)

  datatype Health = Health(status: string, latency: int, lastError: string, failureCount: nat,
                           checkedAt: Time, successAt: Time, target: string)

  datatype Outbound = Outbound(id: string, name: string, nodeId: string, tag: string, protocol: string,
                               settings: string, passwordEnc: string, health: Health, enabled: bool,
                               createdAt: Time, updatedAt: Time)

  datatype Member = Member(outboundId: string, priority: int, weight: int)

  datatype Group = Group(id: string, name: string, nodeId: string, strategy: string, members: seq<Member>,
                         fallback: string, expected: int, enabled: bool, createdAt: Time, updatedAt: Time)

  /** Domains, IPs, ports, network and protocols of a rule. */
  datatype Matcher = Matcher(domains: seq<string>, ips: seq<string>, ports: string, network: string,
                             protocols: seq<string>)

  datatype Rule = Rule(id: string, name: string, nodeId: string, priority: int, enabled: bool,
                       inboundIds: seq<string>, userIds: seq<string>, matcher: Matcher,
                       outboundId: string, groupId: string, createdAt: Time, updatedAt: Time)

  datatype Peer = Peer(id: string, userId: string, nodeId: string, interface: string, address: string,
                       publicKey: string, privateKeyEnc: string, configEnc: string, enabled: bool,
                       rx: int, tx: int, rxBase: int, txBase: int)

  /** A panel account. */
  datatype Administrator = Administrator(id: string, username: string, passwordHash: string, role: string,
                                         totpSecret: string, enabled: bool)

  datatype Tunnel = Tunnel(id: string, sourceNodeId: string, destinationNodeId: string, status: string)

  datatype PortForward = PortForward(id: string, nodeId: string, listenPort: int)

  datatype State = State(plans: seq<Plan>, users: seq<User>, nodes: seq<Node>, tunnels: seq<Tunnel>,
                         inbounds: seq<Inbound>, clients: seq<Client>, outbounds: seq<Outbound>,
                         groups: seq<Group>, rules: seq<Rule>, forwards: seq<PortForward>, peers: seq<Peer>,
                         admins: seq<Administrator>)

  function NodeKey(x: Node): string { x.id }
  function PlanKey(x: Plan): string { x.id }
  function UserKey(x: User): string { x.id }
  function InboundKey(x: Inbound): string { x.id }
  function OutboundKey(x: Outbound): string { x.id }
  function GroupKey(x: Group): string { x.id }
  function RuleKey(x: Rule): string { x.id }
  function PeerKey(x: Peer): string { x.id }
  function TunnelKey(x: Tunnel): string { x.id }
  function ForwardKey(x: PortForward): string { x.id }

  function NodeOf(st: State, id: string): Option<Node> { Find(st.nodes, NodeKey, id) }
  function PlanOf(st: State, id: string): Option<Plan> { Find(st.plans, PlanKey, id) }
  function UserOf(st: State, id: string): Option<User> { Find(st.users, UserKey, id) }
  function InboundOf(st: State, id: string): Option<Inbound> { Find(st.inbounds, InboundKey, id) }
  function OutboundOf(st: State, id: string): Option<Outbound> { Find(st.outbounds, OutboundKey, id) }
  function GroupOf(st: State, id: string): Option<Group> { Find(st.groups, GroupKey, id) }
  function RuleOf(st: State, id: string): Option<Rule> { Find(st.rules, RuleKey, id) }

  /** Why a step refuses to change the state. */
  datatype Error =
    | NotFound | NodeMissing | NodeDisabled | NodeInMaintenance
    | NameTaken | TagTaken | TagReserved | ListenTaken | InvalidInput
    | InUseByRule | InUseByGroup | InUseByUser | MoveBlocked | DisableBlocked
    | MemberMissing | MemberElsewhere | MemberDisabled | MemberBlackhole
    | FallbackIsMember | FallbackMissing | FallbackElsewhere | FallbackDisabled
    | TargetUnavailable | InboundElsewhere | UserMissing | PlanMissing | PlanDisabled
    | NotActive | AlreadyAttached | NodeInUse | DeviceLimitReached | Vanished

  type Outcome<T> = Result<T, Error>

  /** The checks every create, move and enable shares: the node exists, is enabled and not in maintenance. */
  function NodeForWork(st: State, nodeId: string): Option<Error> {
    match NodeOf(st, nodeId)
    case None => Some(NodeMissing)
    case Some(n) => if !n.enabled then Some(NodeDisabled) else if n.maintenance then Some(NodeInMaintenance) else None
  }

  /** Counters, statuses, enable flags, schedules and health results: nothing a reference depends on. */
  ghost predicate SameReferences(a: State, b: State) {
    && b == a.(users := b.users, clients := b.clients, peers := b.peers, outbounds := b.outbounds)
    && |b.users| == |a.users| && |b.clients| == |a.clients| && |b.peers| == |a.peers| && |b.outbounds| == |a.outbounds|
    && (forall i | 0 <= i < |a.users| ::
          b.users[i].id == a.users[i].id && b.users[i].username == a.users[i].username &&
              b.users[i].planId == a.users[i].planId)
    && (forall i | 0 <= i < |a.clients| :: b.clients[i] == a.clients[i].(enabled := b.clients[i].enabled))
    && (forall i | 0 <= i < |a.peers| ::
          b.peers[i] == a.peers[i].(enabled := b.peers[i].enabled, rx := b.peers[i].rx, tx := b.peers[i].tx,
                                    rxBase := b.peers[i].rxBase, txBase := b.peers[i].txBase))
    && (forall i | 0 <= i < |a.outbounds| :: b.outbounds[i] == a.outbounds[i].(health := b.outbounds[i].health))
  }
}
