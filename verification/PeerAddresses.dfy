/** Addresses of stored WireGuard peers: the address part of createWGPeer in internal/panel/accounting.go. */
module PeerAddresses {
  import opened Wrappers
  import opened Lists
  import opened Entities
  import opened Bytes
  import opened WgAddress
  import Slices

  /** How addresses are written and read: net.ParseCIDR of a stored address, and the text that is stored for an
      address. */
  datatype Notation = Notation(parse: string -> Option<seq<byte>>, render: seq<byte> -> string)

  predicate Storable(a: seq<byte>) {
    (|a| == 4 || |a| == 16) && !IsMapped(a)
  }

  ghost predicate Faithful(n: Notation) {
    forall a | Storable(a) :: n.parse(n.render(a)) == Some(a)
  }

  /** The map `used`: addresses of the peers on the node and interface, as far as they parse. */
  function UsedOn(peers: seq<Peer>, n: Notation, node: string, interface: string): set<seq<byte>> {
    set p | p in peers && p.nodeId == node && p.interface == interface && n.parse(p.address).Some? ::
        n.parse(p.address).value
  }

  /** Two peers of one node and interface have different addresses, if both parse. */
  function Apart(n: Notation): (Peer, Peer) -> bool {
    (a: Peer, b: Peer) =>
      a.nodeId == b.nodeId && a.interface == b.interface && n.parse(a.address).Some? && n.parse(b.address).Some? ==>
        n.parse(a.address) != n.parse(b.address)
  }

  ghost predicate Pairwise<T>(xs: seq<T>, rel: (T, T) -> bool) {
    forall i, j | 0 <= i < j < |xs| :: rel(xs[i], xs[j])
  }

  ghost predicate AddressesDistinct(peers: seq<Peer>, n: Notation) {
    Pairwise(peers, Apart(n))
  }

  /** The text is that of an address no peer of the node and interface has. */
  ghost predicate Lent(peers: seq<Peer>, n: Notation, node: string, interface: string, text: string) {
    exists a :: Storable(a) && text == n.render(a) && a !in UsedOn(peers, n, node, interface)
  }

  datatype Refusal = Exhausted | Refused(reason: AddressError)

  /** Allocate when the request names no address, else validate; `client` is None in the first case, Some(None) when the
      text does not parse. */
  method ChooseAddress(peers: seq<Peer>, n: Notation, node: string, interface: string, server: Cidr,
                       client: Option<Option<seq<byte>>>) returns (r: Result<string, Refusal>, ghost address: seq<byte>)
    requires ValidCidr(server)
    ensures var used := UsedOn(peers, n, node, interface);
            match client
            case None =>
              if r.Ok? then FirstUsable(server, used, Some(address))
              else r.error == Exhausted && FirstUsable(server, used, None)
            case Some(c) =>
              (match ValidateClient(server, c, used)
               case Ok(a) => r.Ok? && address == a
               case Err(e) => r == Err(Refused(e)))
    ensures r.Ok? ==> r.value == n.render(address) && address != server.ip && Lent(peers, n, node, interface, r.value)
  {
    var used := UsedOn(peers, n, node, interface);
    if client == None {
      var next := NextAddress(server, used);
      if next == None {
        return Err(Exhausted), [];
      }
      address := next.value;
      Allocated(server, used, address);
      UsableIsStorable(server, used, address);
      r := Ok(n.render(next.value));
    } else {
      var checked := ValidateClient(server, client.value, used);
      if checked.Err? {
        return Err(Refused(checked.error)), [];
      }
      address := checked.value;
      ValidMeansUsable(server, client.value.value, used);
      UsableIsStorable(server, used, address);
      r := Ok(n.render(checked.value));
    }
  }

  lemma UsableIsStorable(server: Cidr, used: set<seq<byte>>, a: seq<byte>)
    requires ValidCidr(server) && Usable(server, used, a) && |a| == |server.ip|
    ensures Storable(a) && a !in used
  {
  }

  // ---------- distinctness ----------

  lemma {:induction false} PairwiseFilter<T>(xs: seq<T>, rel: (T, T) -> bool, p: T -> bool)
    requires Pairwise(xs, rel)
    ensures Pairwise(Filter(xs, p), rel)
  {
    if xs != [] {
      var tail, rest := xs[1..], Filter(xs[1..], p);
      forall i, j | 0 <= i < j < |tail| ensures rel(tail[i], tail[j]) { assert rel(xs[i + 1], xs[j + 1]); }
      PairwiseFilter(tail, rel, p);
      FilterMembers(tail, p);
      forall j | 0 <= j < |rest| ensures rel(xs[0], rest[j]) {
        assert rest[j] in rest && rest[j] in tail;
        var k :| 0 <= k < |tail| && tail[k] == rest[j];
        assert rel(xs[0], xs[k + 1]);
      }
    }
  }

  lemma LentKeeps(peers: seq<Peer>, n: Notation, p: Peer)
    requires Faithful(n) && AddressesDistinct(peers, n) && Lent(peers, n, p.nodeId, p.interface, p.address)
    ensures AddressesDistinct(peers + [p], n)
  {
    var a :| Storable(a) && p.address == n.render(a) && a !in UsedOn(peers, n, p.nodeId, p.interface);
    assert n.parse(p.address) == Some(a);
    forall i | 0 <= i < |peers| ensures Apart(n)(peers[i], p) { assert peers[i] in peers; }
  }

  lemma DropKeeps(peers: seq<Peer>, n: Notation, id: string, p: Peer -> bool)
    requires AddressesDistinct(peers, n)
    ensures AddressesDistinct(Without(peers, PeerKey, id), n) && AddressesDistinct(Filter(peers, p), n)
  {
    PairwiseFilter(peers, Apart(n), p);
    PairwiseFilter(peers, Apart(n), Slices.KeyIsNot(PeerKey, id));
    Slices.WithoutIsFilter(peers, PeerKey, id);
  }

  /** Counters and flags do not matter. */
  lemma BooksKeep(a: State, b: State, n: Notation)
    requires SameReferences(a, b) && AddressesDistinct(a.peers, n)
    ensures AddressesDistinct(b.peers, n)
  {
    forall i, j | 0 <= i < j < |b.peers| ensures Apart(n)(b.peers[i], b.peers[j]) {
      assert Apart(n)(a.peers[i], a.peers[j]);
    }
  }
}
