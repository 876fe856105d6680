/** The disk form of a state (internal/panel/store.go): fields hidden from the API encoding travel beside the record. */
module Persistence {
  import opened Wrappers
  import opened Entities

  datatype DiskNode = DiskNode(node: Node, agentTokenEnc: string)
  datatype DiskInbound = DiskInbound(inbound: Inbound, realityKey: string, ssPassword: string)
  datatype DiskClient = DiskClient(client: Client, credentialEnc: string)
  datatype DiskOutbound = DiskOutbound(outbound: Outbound, passwordEnc: string)
  datatype DiskPeer = DiskPeer(peer: Peer, privateKeyEnc: string, configEnc: string)
  datatype DiskAdmin = DiskAdmin(admin: Administrator, passwordHash: string, totpSecret: string)

  datatype DiskState = DiskState(plans: seq<Plan>, users: seq<User>, nodes: seq<DiskNode>, tunnels: seq<Tunnel>,
                                 inbounds: seq<DiskInbound>, clients: seq<DiskClient>, outbounds: seq<DiskOutbound>,
                                 groups: seq<Group>, rules: seq<Rule>, forwards: seq<PortForward>, peers: seq<DiskPeer>,
                                 admins: seq<DiskAdmin>)

  function NodeToDisk(x: Node): DiskNode { DiskNode(x, x.agentTokenEnc) }
  function InboundToDisk(x: Inbound): DiskInbound { DiskInbound(x, x.realityKey, x.ssPassword) }
  function ClientToDisk(x: Client): DiskClient { DiskClient(x, x.credentialEnc) }
  function OutboundToDisk(x: Outbound): DiskOutbound { DiskOutbound(x, x.passwordEnc) }
  function PeerToDisk(x: Peer): DiskPeer { DiskPeer(x, x.privateKeyEnc, x.configEnc) }
  function AdminToDisk(x: Administrator): DiskAdmin { DiskAdmin(x, x.passwordHash, x.totpSecret) }

  /** Encoding and decoding drop the fields of the embedded record that are tagged "-". */
  function NodeThroughJson(d: DiskNode): DiskNode { d.(node := d.node.(agentTokenEnc := "")) }
  function InboundThroughJson(d: DiskInbound): DiskInbound {
    d.(inbound := d.inbound.(realityKey := "", ssPassword := ""))
  }
  function ClientThroughJson(d: DiskClient): DiskClient { d.(client := d.client.(credentialEnc := "")) }
  function OutboundThroughJson(d: DiskOutbound): DiskOutbound { d.(outbound := d.outbound.(passwordEnc := "")) }

  function PeerThroughJson(d: DiskPeer): DiskPeer { d.(peer := d.peer.(privateKeyEnc := "", configEnc := "")) }
  function AdminThroughJson(d: DiskAdmin): DiskAdmin {
    d.(admin := d.admin.(passwordHash := "", totpSecret := ""))
  }

  function NodeFromDisk(d: DiskNode): Node { d.node.(agentTokenEnc := d.agentTokenEnc) }
  function InboundFromDisk(d: DiskInbound): Inbound {
    d.inbound.(realityKey := d.realityKey, ssPassword := d.ssPassword)
  }
  function ClientFromDisk(d: DiskClient): Client { d.client.(credentialEnc := d.credentialEnc) }
  function OutboundFromDisk(d: DiskOutbound): Outbound { d.outbound.(passwordEnc := d.passwordEnc) }

  function PeerFromDisk(d: DiskPeer): Peer {
    d.peer.(privateKeyEnc := d.privateKeyEnc, configEnc := d.configEnc)
  }
  function AdminFromDisk(d: DiskAdmin): Administrator {
    d.admin.(passwordHash := d.passwordHash, totpSecret := d.totpSecret)
  }

  function Map<A, B>(xs: seq<A>, f: A -> B): (r: seq<B>)
    ensures |r| == |xs| && forall i | 0 <= i < |xs| :: r[i] == f(xs[i])
  {
    if xs == [] then [] else [f(xs[0])] + Map(xs[1..], f)
  }

  /** stateToDisk: one copying loop per collection with hidden fields. */
  method StateToDisk(st: State) returns (d: DiskState)
    ensures d == Disk(st)
  {
    var nodes: seq<DiskNode> := [];
    for i := 0 to |st.nodes|
      invariant |nodes| == i && forall j | 0 <= j < i :: nodes[j] == NodeToDisk(st.nodes[j])
    {
      nodes := nodes + [DiskNode(st.nodes[i], st.nodes[i].agentTokenEnc)];
    }
    var inbounds: seq<DiskInbound> := [];
    for i := 0 to |st.inbounds|
      invariant |inbounds| == i && forall j | 0 <= j < i :: inbounds[j] == InboundToDisk(st.inbounds[j])
    {
      inbounds := inbounds + [DiskInbound(st.inbounds[i], st.inbounds[i].realityKey, st.inbounds[i].ssPassword)];
    }
    var clients: seq<DiskClient> := [];
    for i := 0 to |st.clients|
      invariant |clients| == i && forall j | 0 <= j < i :: clients[j] == ClientToDisk(st.clients[j])
    {
      clients := clients + [DiskClient(st.clients[i], st.clients[i].credentialEnc)];
    }
    var outbounds: seq<DiskOutbound> := [];
    for i := 0 to |st.outbounds|
      invariant |outbounds| == i && forall j | 0 <= j < i :: outbounds[j] == OutboundToDisk(st.outbounds[j])
    {
      outbounds := outbounds + [DiskOutbound(st.outbounds[i], st.outbounds[i].passwordEnc)];
    }
    var peers: seq<DiskPeer> := [];
    for i := 0 to |st.peers|
      invariant |peers| == i && forall j | 0 <= j < i :: peers[j] == PeerToDisk(st.peers[j])
    {
      peers := peers + [DiskPeer(st.peers[i], st.peers[i].privateKeyEnc, st.peers[i].configEnc)];
    }
    var admins: seq<DiskAdmin> := [];
    for i := 0 to |st.admins|
      invariant |admins| == i && forall j | 0 <= j < i :: admins[j] == AdminToDisk(st.admins[j])
    {
      admins := admins + [DiskAdmin(st.admins[i], st.admins[i].passwordHash, st.admins[i].totpSecret)];
    }
    assert nodes == Map(st.nodes, NodeToDisk) && inbounds == Map(st.inbounds, InboundToDisk);
    assert clients == Map(st.clients, ClientToDisk) && outbounds == Map(st.outbounds, OutboundToDisk);
    assert peers == Map(st.peers, PeerToDisk) && admins == Map(st.admins, AdminToDisk);
    d := DiskState(st.plans, st.users, nodes, st.tunnels, inbounds, clients, outbounds, st.groups, st.rules,
                   st.forwards, peers, admins);
  }

  function Disk(st: State): DiskState {
    DiskState(st.plans, st.users, Map(st.nodes, NodeToDisk), st.tunnels, Map(st.inbounds, InboundToDisk),
              Map(st.clients, ClientToDisk), Map(st.outbounds, OutboundToDisk), st.groups, st.rules, st.forwards,
              Map(st.peers, PeerToDisk), Map(st.admins, AdminToDisk))
  }

  /** json.MarshalIndent followed by json.Unmarshal. */
  function ThroughJson(d: DiskState): DiskState {
    d.(nodes := Map(d.nodes, NodeThroughJson), inbounds := Map(d.inbounds, InboundThroughJson),
       clients := Map(d.clients, ClientThroughJson), outbounds := Map(d.outbounds, OutboundThroughJson),
       peers := Map(d.peers, PeerThroughJson), admins := Map(d.admins, AdminThroughJson))
  }

  /** diskToState */
  function FromDisk(d: DiskState): State {
    State(d.plans, d.users, Map(d.nodes, NodeFromDisk), d.tunnels, Map(d.inbounds, InboundFromDisk),
          Map(d.clients, ClientFromDisk), Map(d.outbounds, OutboundFromDisk), d.groups, d.rules, d.forwards,
          Map(d.peers, PeerFromDisk), Map(d.admins, AdminFromDisk))
  }

  /** Nothing is lost on the way to disk and back, the hidden fields included. */
  lemma DiskRoundTrip(st: State)
    ensures FromDisk(ThroughJson(Disk(st))) == st
  {
    var back := FromDisk(ThroughJson(Disk(st)));
    assert back.nodes == st.nodes;
    assert back.inbounds == st.inbounds;
    assert back.clients == st.clients;
    assert back.outbounds == st.outbounds;
    assert back.peers == st.peers;
    assert back.admins == st.admins;
  }

  /** A file holds an encoded state, or whatever an interrupted write left. */
  datatype File = Garbage | Doc(disk: DiskState)

  const EMPTY := State([], [], [], [], [], [], [], [], [], [], [], [])

  /** OpenStore: a missing file is an empty state, an undecodable one an error. */
  function Open(files: map<string, File>, path: string): Option<State> {
    if path !in files then Some(EMPTY)
    else match files[path] case Garbage => None case Doc(d) => Some(FromDisk(d))
  }

  /** Which steps of saveStateLocked succeed. */
  datatype SaveIo = SaveIo(mkdir: bool, write: bool, rename: bool) {
    predicate Ok() { mkdir && write && rename }
  }
}
