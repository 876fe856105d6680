/** What a node's configuration offers, read off the configuration: inbounds, who is let in, outbounds, native outbounds
    and probes. */
module Admission {
  import opened Wrappers
  import opened Lists
  import Text
  import opened Entities
  import Sorting
  import HealthPorts
  import opened Compiler
  import opened Integrity
  import opened Balancers
  import opened Resolution

  // ---------- inbounds ----------

  /** The item offers the stored inbound on its own socket, with its own settings and keys. */
  predicate Offers(it: InboundItem, x: Inbound) {
    && it.tag == "gb-in-" + x.id
    && it.listen == x.listen && it.port == x.port && it.protocol == x.protocol && it.transport == x.transport
    && it.tlsMode == x.tlsMode && it.settings == x.settings
    && it.realityKey == x.realityKey && it.ssPassword == x.ssPassword
  }

  predicate KnownProtocol(p: string) {
    p in {"vless", "vmess", "trojan", "shadowsocks"}
  }

  lemma {:induction false} ItemsOffer(st: State, xs: seq<Inbound>, it: InboundItem)
    ensures it in InboundItems(st, xs) <==>
            exists x :: x in xs && x.enabled && KnownProtocol(x.protocol) && Offers(it, x) &&
              it.clients == ClientItems(st, st.clients, x.id)
  {
    if xs != [] {
      ItemsOffer(st, xs[1..], it);
      assert xs == [xs[0]] + xs[1..];
      if x :| x in xs && x.enabled && KnownProtocol(x.protocol) && Offers(it, x) &&
              it.clients == ClientItems(st, st.clients, x.id) {
        assert x == xs[0] || x in xs[1..];
      }
      if it in InboundItems(st, xs) && it !in InboundItems(st, xs[1..]) {
        assert xs[0] in xs && Offers(it, xs[0]);
      }
      if it in InboundItems(st, xs[1..]) {
        var x :| x in xs[1..] && x.enabled && KnownProtocol(x.protocol) && Offers(it, x) &&
                 it.clients == ClientItems(st, st.clients, x.id);
        assert x in xs;
      }
    }
  }

  /** Main result: an inbound is in the configuration of a node if and only if it is stored on the node, enabled, and of
      a known protocol. */
  lemma InboundServed(st: State, nodeId: string, cfg: XrayConfig, x: Inbound)
    requires Inv(st) && Xray(st, nodeId) == Some(cfg) && x in st.inbounds
    ensures (exists it :: it in cfg.inbounds && it.tag == "gb-in-" + x.id) <==>
            x.nodeId == nodeId && x.enabled && KnownProtocol(x.protocol)
    ensures forall it | it in cfg.inbounds && it.tag == "gb-in-" + x.id :: Offers(it, x)
  {
    var xs := Filter(st.inbounds, InboundOn(nodeId));
    FilterMembers(st.inbounds, InboundOn(nodeId));
    forall it | it in cfg.inbounds && it.tag == "gb-in-" + x.id
      ensures Offers(it, x) && x.nodeId == nodeId && x.enabled && KnownProtocol(x.protocol)
    {
      var y := ItemOwner(st, nodeId, cfg, it);
      SameTagSameInbound(st, x, y);
    }
    if x.nodeId == nodeId && x.enabled && KnownProtocol(x.protocol) {
      var it := InboundItem("gb-in-" + x.id, x.listen, x.port, x.protocol, x.transport, x.tlsMode, x.settings,
                            x.realityKey, x.ssPassword, ClientItems(st, st.clients, x.id));
      ItemsOffer(st, xs, it);
      assert Offers(it, x) && it in cfg.inbounds;
    }
  }

  /** Every emitted inbound is a stored one. */
  lemma ItemOwner(st: State, nodeId: string, cfg: XrayConfig, it: InboundItem) returns (x: Inbound)
    requires Xray(st, nodeId) == Some(cfg) && it in cfg.inbounds
    ensures x in st.inbounds && x.nodeId == nodeId && x.enabled && KnownProtocol(x.protocol) && Offers(it, x)
    ensures it.clients == ClientItems(st, st.clients, x.id)
  {
    var xs := Filter(st.inbounds, InboundOn(nodeId));
    FilterMembers(st.inbounds, InboundOn(nodeId));
    ItemsOffer(st, xs, it);
    x :| x in xs && x.enabled && KnownProtocol(x.protocol) && Offers(it, x) &&
         it.clients == ClientItems(st, st.clients, x.id);
  }

  lemma SameTagSameInbound(st: State, x: Inbound, y: Inbound)
    requires Inv(st) && x in st.inbounds && y in st.inbounds && "gb-in-" + x.id == "gb-in-" + y.id
    ensures x == y
  {
    assert ("gb-in-" + x.id)[6..] == x.id && ("gb-in-" + y.id)[6..] == y.id;
    UniqueIn(st.inbounds, InboundKey, x);
    UniqueIn(st.inbounds, InboundKey, y);
  }

  // ---------- who is let in ----------

  /** The user exists with status "active". */
  ghost predicate Active(st: State, userId: string) {
    exists u :: u in st.users && u.id == userId && u.status == "active"
  }

  /** A stored, enabled binding of the inbound with the credential and the label, whose user exists and is active. */
  ghost predicate LetIn(st: State, c: Client, inboundId: string, credential: string, email: string) {
    && c in st.clients && c.inboundId == inboundId && c.enabled && c.credentialEnc == credential
    && email == (if c.email == "" then "gb:" + c.userId else c.email)
    && Active(st, c.userId)
  }

  /** How the binding at the head of the list shows. */
  lemma HeadLetIn(st: State, c: Client, rest: seq<Client>, inboundId: string)
    requires Unique(st.users, UserKey)
    ensures var email := if c.email == "" then "gb:" + c.userId else c.email;
            ClientItems(st, [c] + rest, inboundId) ==
            (if c.inboundId == inboundId && c.enabled && Active(st, c.userId)
             then [ClientItem(c.credentialEnc, email)] else []) + ClientItems(st, rest, inboundId)
  {
    assert ([c] + rest)[1..] == rest;
    if u :| u in st.users && u.id == c.userId && u.status == "active" { UniqueIn(st.users, UserKey, u); }
  }

  lemma {:induction false} BindingsLetIn(st: State, cs: seq<Client>, inboundId: string, credential: string,
                                         email: string)
    requires Unique(st.users, UserKey) && forall c | c in cs :: c in st.clients
    ensures ClientItem(credential, email) in ClientItems(st, cs, inboundId) <==>
            exists c :: c in cs && LetIn(st, c, inboundId, credential, email)
  {
    if cs != [] {
      var c, rest := cs[0], cs[1..];
      assert cs == [c] + rest && forall d | d in rest :: d in cs;
      BindingsLetIn(st, rest, inboundId, credential, email);
      HeadLetIn(st, c, rest, inboundId);
      assert c in cs;
      if d :| d in cs && LetIn(st, d, inboundId, credential, email) {
        assert d == c || d in rest;
      }
    }
  }

  /** Main result: the emitted inbound lets in a credential under a label if and only if a stored, enabled binding of it
      has both and its user exists with status "active". */
  lemma ClientServed(st: State, nodeId: string, cfg: XrayConfig, x: Inbound, it: InboundItem, credential: string,
                     email: string)
    requires Inv(st) && Xray(st, nodeId) == Some(cfg) && x in st.inbounds
    requires it in cfg.inbounds && it.tag == "gb-in-" + x.id
    ensures ClientItem(credential, email) in it.clients <==>
            exists c :: c in st.clients && LetIn(st, c, x.id, credential, email)
  {
    var y := ItemOwner(st, nodeId, cfg, it);
    SameTagSameInbound(st, x, y);
    BindingsLetIn(st, st.clients, x.id, credential, email);
  }

  // ---------- outbounds ----------

  /** Main result: the configuration has an outbound with a stored outbound's tag if and only if an enabled outbound of
      the node has it, and the item is then that outbound with its protocol, settings and secret. */
  lemma OutboundServed(st: State, nodeId: string, cfg: XrayConfig, x: Outbound)
    requires Inv(st) && Xray(st, nodeId) == Some(cfg) && x in st.outbounds && x.nodeId == nodeId
    ensures (exists it :: it in cfg.outbounds && it.tag == x.tag) <==> x.enabled
    ensures forall it | it in cfg.outbounds && it.tag == x.tag ::
              it.protocol == x.protocol && it.settings == x.settings && it.secret == x.passwordEnc
  {
    assert OutboundOk(x, NodeIds(st));
    TagIsNoAlias(x.tag);
    if x.enabled {
      OwnItem(st, nodeId, x);
      assert ItemOf(x) in cfg.outbounds;
    }
    forall it | it in cfg.outbounds && it.tag == x.tag ensures x.enabled && it == ItemOf(x) {
      StoredItem(st, nodeId, it, x);
    }
  }

  lemma AliasStarts(st: State, nodeId: string, it: OutboundItem)
    requires it in AliasItems(st, nodeId)
    ensures Text.HasPrefix(it.tag, "gbm-")
  {
    var gs := Filter(st.groups, GroupOn(nodeId));
    AliasesFrom(st, nodeId, gs, ByTag(BaseItems(st, nodeId)));
    var g, m :| g in gs && g.enabled && m in g.members && it.tag == AliasTag(g.id, m.outboundId);
    AliasParts(g.id, m.outboundId);
  }

  lemma StoredItem(st: State, nodeId: string, it: OutboundItem, x: Outbound)
    requires Inv(st) && x in st.outbounds && x.nodeId == nodeId && it in AllItems(st, nodeId) && it.tag == x.tag
    ensures x.enabled && it == ItemOf(x)
  {
    assert OutboundOk(x, NodeIds(st));
    TagIsNoAlias(x.tag);
    var xs := Filter(st.outbounds, OutboundOn(nodeId));
    FilterMembers(st.outbounds, OutboundOn(nodeId));
    if it in AliasItems(st, nodeId) { AliasStarts(st, nodeId, it); }
    OutboundItemsFrom(xs);
    if it in OutboundItems(xs) {
      var y :| y in xs && y.enabled && it == ItemOf(y);
      SameTagSameOutbound(st, x, y);
      UniqueIn(st.outbounds, OutboundKey, x);
      UniqueIn(st.outbounds, OutboundKey, y);
    }
  }

  /** The native services of a node: exactly its enabled outbounds of the three native protocols. */
  lemma NativeServed(st: State, nodeId: string, it: OutboundItem)
    ensures it in Native(st, nodeId) <==>
            exists x :: x in st.outbounds && x.nodeId == nodeId && x.enabled &&
              x.protocol in {"wireguard", "tor", "openvpn"} && it.tag == x.tag && it.protocol == x.protocol &&
              it.settings == x.settings && it.secret == x.passwordEnc
  {
    var xs := Filter(st.outbounds, OutboundOn(nodeId));
    FilterMembers(st.outbounds, OutboundOn(nodeId));
    NativeFrom(xs, "wireguard", it);
    NativeFrom(xs, "tor", it);
    NativeFrom(xs, "openvpn", it);
    if x :| x in st.outbounds && x.nodeId == nodeId && x.enabled && x.protocol in {"wireguard", "tor", "openvpn"} &&
            it.tag == x.tag && it.protocol == x.protocol && it.settings == x.settings && it.secret == x.passwordEnc {
      assert x in xs && it == ItemOf(x);
    }
  }

  lemma {:induction false} NativeFrom(xs: seq<Outbound>, protocol: string, it: OutboundItem)
    ensures it in NativeItems(xs, protocol) <==>
            exists x :: x in xs && x.enabled && x.protocol == protocol && it == ItemOf(x)
  {
    if xs != [] {
      NativeFrom(xs[1..], protocol, it);
      assert xs == [xs[0]] + xs[1..];
      if x :| x in xs && x.enabled && x.protocol == protocol && it == ItemOf(x) { assert x == xs[0] || x in xs[1..]; }
      if it in NativeItems(xs, protocol) && it !in NativeItems(xs[1..], protocol) { assert xs[0] in xs; }
    }
  }

  // ---------- probes ----------

  lemma {:induction false} CandidatesHave(xs: seq<Outbound>, nodeId: string, x: Outbound)
    requires x in xs && x.nodeId == nodeId && x.enabled && x.protocol != "blackhole"
    ensures HealthPorts.Candidate(x.id, x.tag) in HealthPorts.CandidatesOf(xs, nodeId)
  {
    var init, last := xs[..|xs| - 1], xs[|xs| - 1];
    assert xs == init + [last];
    if x != last { CandidatesHave(init, nodeId, x); }
  }

  /** Main result: an outbound is probed on a node if and only if it is stored there, enabled and no blackhole. */
  lemma Probed(st: State, nodeId: string, cfg: XrayConfig, x: Outbound)
    requires Inv(st) && Xray(st, nodeId) == Some(cfg) && x in st.outbounds
    ensures (exists k :: 0 <= k < |cfg.probes| && cfg.probes[k].outboundId == x.id) <==>
            x.nodeId == nodeId && x.enabled && x.protocol != "blackhole"
  {
    var ps, ranked := cfg.probes, HealthPorts.Ranked(st, nodeId);
    ProbesFit(st, nodeId, ps);
    UniqueIn(st.outbounds, OutboundKey, x);
    if k :| 0 <= k < |ps| && ps[k].outboundId == x.id {
      assert ProbeFits(st, nodeId, ps[k]);
    }
    if x.nodeId == nodeId && x.enabled && x.protocol != "blackhole" {
      var c := HealthPorts.Candidate(x.id, x.tag);
      CandidatesHave(st.outbounds, nodeId, x);
      RankedHas(st, nodeId, c);
      var k :| 0 <= k < |ranked| && ranked[k] == c;
      assert ps[k].outboundId == x.id;
    }
  }

  lemma RankedHas(st: State, nodeId: string, c: HealthPorts.Candidate)
    requires Unique(st.outbounds, OutboundKey) && c in HealthPorts.CandidatesOf(st.outbounds, nodeId)
    ensures c in HealthPorts.Ranked(st, nodeId)
  {
    RankedUnique(st, nodeId);
    assert c in multiset(HealthPorts.Ranked(st, nodeId)) by { RankedMultiset(st, nodeId); }
  }

  lemma RankedMultiset(st: State, nodeId: string)
    requires Unique(st.outbounds, OutboundKey)
    ensures multiset(HealthPorts.Ranked(st, nodeId)) == multiset(HealthPorts.CandidatesOf(st.outbounds, nodeId))
  {
    CandidatesUnique(st.outbounds, nodeId);
    Sorting.SortUnique(HealthPorts.CandidatesOf(st.outbounds, nodeId), HealthPorts.ById, CandidateKey);
  }
}
