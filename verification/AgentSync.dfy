/** internal/agent/wireguard_outbound.go: reconciling the WireGuard interfaces of a node with the panel's list. */
module AgentSync {
  import opened Wrappers
  import opened Text

  datatype Spec = Spec(iface: string, address: string, privateKey: string, peerKey: string, endpoint: string,
                       allowedIps: seq<string>, keepalive: int, mtu: int)

  /** net.ParseCIDR, and net.SplitHostPort with a host and a port that are not blank. */
  datatype Parsers = Parsers(cidr: string -> bool, endpoint: string -> bool)

  predicate SafeChar(c: char) {
    'A' <= c <= 'Z' || 'a' <= c <= 'z' || '0' <= c <= '9' || c == '_' || c == '.' || c == '-'
  }

  /** safeName, at most 15 characters */
  predicate SafeName(s: string) {
    1 <= |s| <= 15 && forall i | 0 <= i < |s| :: SafeChar(s[i])
  }

  /** What safeWGPathComponent accepts. */
  predicate Component(s: string) {
    SafeName(s) && s != "." && s != ".."
  }

  const EVERYWHERE := ["0.0.0.0/0", "::/0"]

  function Tidy(raw: Spec): Spec {
    Spec(Trim(raw.iface), Trim(raw.address), Trim(raw.privateKey), Trim(raw.peerKey), Trim(raw.endpoint),
         if raw.allowedIps == [] then EVERYWHERE else TrimAll(raw.allowedIps),
         if raw.keepalive == 0 then 25 else raw.keepalive,
         if raw.mtu == 0 then 1420 else raw.mtu)
  }

  predicate Acceptable(x: Spec, p: Parsers) {
    && SafeName(x.iface) && p.cidr(x.address) && x.privateKey != "" && x.peerKey != "" && p.endpoint(x.endpoint)
    && (forall i | 0 <= i < |x.allowedIps| :: p.cidr(x.allowedIps[i]))
    && 0 <= x.keepalive <= 65535 && 576 <= x.mtu <= 9000
  }

  /** normalizeWGOutboundSpec; None for its errors. */
  function Normalize(raw: Spec, p: Parsers): Option<Spec> {
    if Acceptable(Tidy(raw), p) then Some(Tidy(raw)) else None
  }

  /** What an accepted specification becomes: blanks go, and three fields have defaults. */
  lemma NormalizedSpec(raw: Spec, p: Parsers, x: Spec)
    requires Normalize(raw, p) == Some(x)
    ensures x == raw.(iface := Trim(raw.iface), address := Trim(raw.address), privateKey := Trim(raw.privateKey),
                      peerKey := Trim(raw.peerKey), endpoint := Trim(raw.endpoint), allowedIps := x.allowedIps,
                      keepalive := if raw.keepalive != 0 then raw.keepalive else 25,
                      mtu := if raw.mtu != 0 then raw.mtu else 1420)
    ensures raw.allowedIps == [] ==> x.allowedIps == ["0.0.0.0/0", "::/0"]
    ensures raw.allowedIps != [] ==> x.allowedIps == TrimAll(raw.allowedIps)
  {
  }

  lemma TrimAllTwice(xs: seq<string>)
    ensures TrimAll(TrimAll(xs)) == TrimAll(xs) && TrimAll(EVERYWHERE) == EVERYWHERE
  {
    forall i | 0 <= i < |xs| ensures Trim(Trim(xs[i])) == Trim(xs[i]) { TrimTwice(xs[i]); }
    TrimSolid("0.0.0.0/0");
    TrimSolid("::/0");
    assert EVERYWHERE[0] == "0.0.0.0/0" && EVERYWHERE[1] == "::/0";
  }

  /** Applying normalizes again what the sync has normalized: nothing changes. */
  lemma NormalizeTwice(raw: Spec, p: Parsers)
    requires Normalize(raw, p).Some?
    ensures Normalize(Normalize(raw, p).value, p) == Normalize(raw, p)
  {
    TrimTwice(raw.iface);
    TrimTwice(raw.address);
    TrimTwice(raw.privateKey);
    TrimTwice(raw.peerKey);
    TrimTwice(raw.endpoint);
    TrimAllTwice(raw.allowedIps);
    assert Tidy(Tidy(raw)) == Tidy(raw);
  }

  // ---------- files ----------

  /** A configuration file: the rendering of a specification, or something else. */
  datatype Content = Rendered(spec: Spec) | Foreign(text: string)

  /** /etc/wireguard by interface, and the interfaces that have a marker. */
  datatype Files = Files(configs: map<string, Content>, markers: set<string>)

  /** What goes wrong while one specification is applied. A failed marker write may or may not leave the marker. */
  datatype Fault = NoFault | BeforeConfig | MarkerFails(left: bool) | ServiceFails

  /** Which files of a removal cannot be deleted. */
  datatype Stuck = Stuck(config: bool, marker: bool)

  /** A configuration without a marker belongs to somebody else. */
  predicate Unmanaged(f: Files, iface: string) {
    iface in f.configs && iface !in f.markers
  }

  /** applyManagedWGOutbound of a normalized specification. */
  function Applied(f: Files, x: Spec, fault: Fault): (Files, bool) {
    if !Component(x.iface) || Unmanaged(f, x.iface) || fault.BeforeConfig? then (f, false)
    else
      var configs := f.configs[x.iface := Rendered(x)];
      if fault == MarkerFails(false) then (Files(configs, f.markers), false)
      else (Files(configs, f.markers + {x.iface}), fault.NoFault?)
  }

  /** removeManagedWGOutbound */
  function Removed(f: Files, iface: string, stuck: Stuck): Files {
    if !Component(iface) then f
    else Files(if stuck.config then f.configs else f.configs - {iface},
               if stuck.marker then f.markers else f.markers - {iface})
  }

  function Interfaces(xs: seq<Spec>): set<string> {
    set i | 0 <= i < |xs| :: xs[i].iface
  }

  function Normalizer(p: Parsers): Spec -> Option<Spec> {
    (raw: Spec) => Normalize(raw, p)
  }

  /** The first loop of syncManagedWGOutbounds: every specification valid, no interface twice. */
  function NormalizeAll(specs: seq<Spec>, norm: Spec -> Option<Spec>): Option<seq<Spec>> {
    if specs == [] then Some([])
    else
      match NormalizeAll(specs[..|specs| - 1], norm)
      case None => None
      case Some(xs) =>
        match norm(specs[|specs| - 1])
        case None => None
        case Some(x) => if x.iface in Interfaces(xs) then None else Some(xs + [x])
  }

  function ApplyAll(f: Files, xs: seq<Spec>, faults: nat -> Fault): (Files, bool) {
    if xs == [] then (f, true)
    else
      var done := ApplyAll(f, xs[..|xs| - 1], faults);
      if !done.1 then done else Applied(done.0, xs[|xs| - 1], faults(|xs| - 1))
  }

  /** The last loop: every marked interface that is not wanted is removed. */
  function RemoveStale(f: Files, wanted: set<string>, stuck: string -> Stuck): Files {
    Files(map k | k in f.configs && (k !in f.markers || k in wanted || stuck(k).config) :: f.configs[k],
          set k | k in f.markers && (k in wanted || stuck(k).marker))
  }

  function Synced(f: Files, specs: seq<Spec>, p: Parsers, faults: nat -> Fault, stuck: string -> Stuck): (Files, bool) {
    match NormalizeAll(specs, Normalizer(p))
    case None => (f, false)
    case Some(xs) =>
      var done := ApplyAll(f, xs, faults);
      if !done.1 then done else (RemoveStale(done.0, Interfaces(xs), stuck), true)
  }

  /** The markers are the agent's own files: they carry the names it writes. */
  predicate OwnMarkers(f: Files) {
    forall m | m in f.markers :: Component(m)
  }

  class Agent {
    var configs: map<string, Content>
    var markers: set<string>

    function Disk(): Files
      reads this
    {
      Files(configs, markers)
    }

    method Apply(raw: Spec, p: Parsers, fault: Fault) returns (ok: bool)
      requires OwnMarkers(Disk())
      modifies this
      ensures match Normalize(raw, p)
              case None => !ok && Disk() == old(Disk())
              case Some(x) => (Disk(), ok) == Applied(old(Disk()), x, fault)
      ensures OwnMarkers(Disk())
    {
      var n := Normalize(raw, p);
      if n == None { return false; }
      var x := n.value;
      if !Component(x.iface) { return false; }
      if x.iface in configs && x.iface !in markers { return false; }
      if fault == BeforeConfig { return false; }
      configs := configs[x.iface := Rendered(x)];
      if fault == MarkerFails(false) { return false; }
      markers := markers + {x.iface};
      return fault == NoFault;
    }

    method Remove(iface: string, stuck: Stuck)
      requires OwnMarkers(Disk())
      modifies this
      ensures Disk() == Removed(old(Disk()), iface, stuck) && OwnMarkers(Disk())
    {
      if !Component(iface) { return; }
      if !stuck.config { configs := configs - {iface}; }
      if !stuck.marker { markers := markers - {iface}; }
    }

    method Sync(specs: seq<Spec>, p: Parsers, faults: nat -> Fault, stuck: string -> Stuck) returns (ok: bool)
      requires OwnMarkers(Disk())
      modifies this
      ensures (Disk(), ok) == Synced(old(Disk()), specs, p, faults, stuck)
      ensures OwnMarkers(Disk())
    {
      var listed := Validate(specs, p);
      if listed == None { return false; }
      var applied := ApplyEach(listed.value, p, faults);
      if !applied { return false; }
      RemoveUnlisted(Interfaces(listed.value), stuck);
      return true;
    }

    /** The second loop of syncManagedWGOutbounds. */
    method ApplyEach(xs: seq<Spec>, p: Parsers, faults: nat -> Fault) returns (ok: bool)
      requires OwnMarkers(Disk()) && forall x | x in xs :: Normalize(x, p) == Some(x)
      modifies this
      ensures (Disk(), ok) == ApplyAll(old(Disk()), xs, faults)
      ensures OwnMarkers(Disk())
    {
      ghost var before := Disk();
      for k := 0 to |xs|
        invariant ApplyAll(before, xs[..k], faults) == (Disk(), true)
        invariant OwnMarkers(Disk())
      {
        assert xs[..k + 1][..k] == xs[..k];
        assert xs[k] in xs;
        ApplyPrefix(before, xs, faults, k + 1);
        var applied := Apply(xs[k], p, faults(k));
        if !applied { return false; }
      }
      assert xs[..|xs|] == xs;
      return true;
    }

    /** The third loop of syncManagedWGOutbounds; the directory is listed once, before it. */
    method RemoveUnlisted(wanted: set<string>, stuck: string -> Stuck)
      requires OwnMarkers(Disk())
      modifies this
      ensures Disk() == RemoveStale(old(Disk()), wanted, stuck)
      ensures OwnMarkers(Disk())
    {
      ghost var before := Disk();
      var todo := markers;
      RemoveNothing(before, wanted + todo, stuck);
      while todo != {}
        invariant todo <= before.markers && OwnMarkers(Disk())
        invariant Disk() == RemoveStale(before, wanted + todo, stuck)
      {
        var m :| m in todo;
        assert Component(m);
        RemoveOne(before, wanted, todo, m, stuck);
        if m !in wanted { Remove(m, stuck(m)); }
        todo := todo - {m};
      }
      assert wanted + todo == wanted;
    }
  }

  /** The first loop of syncManagedWGOutbounds. */
  method Validate(specs: seq<Spec>, p: Parsers) returns (r: Option<seq<Spec>>)
    ensures r == NormalizeAll(specs, Normalizer(p))
    ensures r.Some? ==> forall x | x in r.value :: Normalize(x, p) == Some(x)
  {
    var normalized: seq<Spec> := [];
    var wanted: set<string> := {};
    for k := 0 to |specs|
      invariant NormalizeAll(specs[..k], Normalizer(p)) == Some(normalized) && wanted == Interfaces(normalized)
      invariant forall x | x in normalized :: Normalize(x, p) == Some(x)
    {
      NormalizePrefix(specs, Normalizer(p), k + 1);
      assert specs[..k + 1][..k] == specs[..k];
      var n := Normalize(specs[k], p);
      if n == None || n.value.iface in wanted { return None; }
      NormalizeTwice(specs[k], p);
      InterfacesAppend(normalized, n.value);
      normalized := normalized + [n.value];
      wanted := wanted + {n.value.iface};
    }
    assert specs[..|specs|] == specs;
    return Some(normalized);
  }

  lemma RemoveNothing(f: Files, wanted: set<string>, stuck: string -> Stuck)
    requires f.markers <= wanted
    ensures RemoveStale(f, wanted, stuck) == f
  {
    assert RemoveStale(f, wanted, stuck).configs == f.configs;
  }

  lemma InterfacesAppend(xs: seq<Spec>, x: Spec)
    ensures Interfaces(xs + [x]) == Interfaces(xs) + {x.iface}
  {
    forall i | 0 <= i < |xs| ensures xs[i].iface in Interfaces(xs + [x]) { assert (xs + [x])[i] == xs[i]; }
    assert (xs + [x])[|xs|] == x;
  }

  /** A failure in a prefix is a failure. */
  lemma {:induction false} NormalizePrefix(specs: seq<Spec>, norm: Spec -> Option<Spec>, n: nat)
    requires n <= |specs|
    ensures NormalizeAll(specs[..n], norm).None? ==> NormalizeAll(specs, norm).None?
    decreases |specs|
  {
    if n < |specs| {
      assert specs[..|specs| - 1][..n] == specs[..n];
      NormalizePrefix(specs[..|specs| - 1], norm, n);
    } else {
      assert specs[..n] == specs;
    }
  }

  lemma {:induction false} ApplyPrefix(f: Files, xs: seq<Spec>, faults: nat -> Fault, n: nat)
    requires n <= |xs|
    ensures !ApplyAll(f, xs[..n], faults).1 ==> ApplyAll(f, xs, faults) == ApplyAll(f, xs[..n], faults)
    decreases |xs|
  {
    if n < |xs| {
      assert xs[..|xs| - 1][..n] == xs[..n];
      ApplyPrefix(f, xs[..|xs| - 1], faults, n);
    } else {
      assert xs[..n] == xs;
    }
  }

  lemma RemoveOne(f: Files, wanted: set<string>, todo: set<string>, m: string, stuck: string -> Stuck)
    requires m in todo && todo <= f.markers && Component(m)
    ensures var g := RemoveStale(f, wanted + todo, stuck);
            RemoveStale(f, wanted + (todo - {m}), stuck) == if m in wanted then g else Removed(g, m, stuck(m))
  {
    var g, h := RemoveStale(f, wanted + todo, stuck), RemoveStale(f, wanted + (todo - {m}), stuck);
    if m in wanted {
      assert wanted + (todo - {m}) == wanted + todo;
    } else {
      var r := Removed(g, m, stuck(m));
      assert forall k :: k in h.configs <==> k in r.configs;
      assert h.configs == r.configs;
      assert h.markers == r.markers;
    }
  }

  // ---------- what a sync achieves ----------

  lemma {:induction false} NormalizedLength(specs: seq<Spec>, norm: Spec -> Option<Spec>)
    requires NormalizeAll(specs, norm).Some?
    ensures |NormalizeAll(specs, norm).value| == |specs|
  {
    if specs != [] { NormalizedLength(specs[..|specs| - 1], norm); }
  }

  lemma {:induction false} NormalizedAt(specs: seq<Spec>, norm: Spec -> Option<Spec>, i: nat)
    requires NormalizeAll(specs, norm).Some? && i < |specs| == |NormalizeAll(specs, norm).value|
    ensures norm(specs[i]) == Some(NormalizeAll(specs, norm).value[i])
  {
    var n := |specs| - 1;
    NormalizedLength(specs[..n], norm);
    if i < n { NormalizedAt(specs[..n], norm, i); }
  }

  lemma {:induction false} NormalizedDistinct(specs: seq<Spec>, norm: Spec -> Option<Spec>)
    requires NormalizeAll(specs, norm).Some?
    ensures var xs := NormalizeAll(specs, norm).value; forall i, j | 0 <= i < j < |xs| :: xs[i].iface != xs[j].iface
  {
    if specs != [] {
      NormalizedDistinct(specs[..|specs| - 1], norm);
      var xs := NormalizeAll(specs[..|specs| - 1], norm).value;
      assert forall i | 0 <= i < |xs| :: xs[i].iface in Interfaces(xs);
    }
  }

  /** None of the interfaces has a configuration of somebody else, and each can be a file name. */
  predicate Clear(f: Files, xs: seq<Spec>) {
    forall i | 0 <= i < |xs| :: Component(xs[i].iface) && !Unmanaged(f, xs[i].iface)
  }

  predicate Faultless(faults: nat -> Fault, n: nat) {
    forall k: nat | k < n :: faults(k).NoFault?
  }

  /** The files after every specification was applied to f. */
  ghost predicate HoldsAll(f: Files, xs: seq<Spec>, g: Files) {
    && g.markers == f.markers + Interfaces(xs)
    && g.configs.Keys == f.configs.Keys + Interfaces(xs)
    && (forall i | 0 <= i < |xs| :: g.configs[xs[i].iface] == Rendered(xs[i]))
    && (forall k | k in f.configs && k !in Interfaces(xs) :: g.configs[k] == f.configs[k])
  }

  lemma HoldsOneMore(f: Files, init: seq<Spec>, x: Spec, g: Files)
    requires HoldsAll(f, init, g) && x.iface !in Interfaces(init)
    ensures HoldsAll(f, init + [x], Files(g.configs[x.iface := Rendered(x)], g.markers + {x.iface}))
  {
    InterfacesAppend(init, x);
    var xs := init + [x];
    assert forall i | 0 <= i < |init| :: xs[i] == init[i] && init[i].iface in Interfaces(init);
  }

  lemma {:induction false} ApplyAllExact(f: Files, xs: seq<Spec>, faults: nat -> Fault)
    requires forall i, j | 0 <= i < j < |xs| :: xs[i].iface != xs[j].iface
    ensures ApplyAll(f, xs, faults).1 <==> Clear(f, xs) && Faultless(faults, |xs|)
    ensures ApplyAll(f, xs, faults).1 ==> HoldsAll(f, xs, ApplyAll(f, xs, faults).0)
  {
    if xs != [] {
      var n := |xs| - 1;
      var init, x := xs[..n], xs[n];
      assert xs == init + [x];
      ApplyAllExact(f, init, faults);
      InterfacesAppend(init, x);
      var done := ApplyAll(f, init, faults);
      assert x.iface !in Interfaces(init);
      if done.1 {
        HoldsOneMore(f, init, x, done.0);
        assert Unmanaged(done.0, x.iface) <==> Unmanaged(f, x.iface);
      }
      assert Clear(f, xs) <==> Clear(f, init) && Component(x.iface) && !Unmanaged(f, x.iface);
      assert Faultless(faults, n + 1) <==> Faultless(faults, n) && faults(n).NoFault?;
    }
  }

  /** Main result: a sync succeeds exactly when the list is valid, no interface in it is somebody else's and nothing
      fails; unless a removal is stuck, the markers are then the listed interfaces, each with the rendering of its
      specification, and every other configuration that is left had no marker and is as it was. */
  lemma SyncConverges(f: Files, specs: seq<Spec>, p: Parsers, faults: nat -> Fault, stuck: string -> Stuck)
    ensures var xs := NormalizeAll(specs, Normalizer(p));
            Synced(f, specs, p, faults, stuck).1 <==> xs.Some? && Clear(f, xs.value) && Faultless(faults, |xs.value|)
    ensures var g := Synced(f, specs, p, faults, stuck);
            g.1 && (forall k :: stuck(k) == Stuck(false, false)) ==>
              var xs := NormalizeAll(specs, Normalizer(p)).value;
              && g.0.markers == Interfaces(xs)
              && g.0.configs.Keys == Interfaces(xs) + (f.configs.Keys - f.markers)
              && (forall i | 0 <= i < |xs| :: g.0.configs[xs[i].iface] == Rendered(xs[i]))
              && (forall k | Unmanaged(f, k) :: g.0.configs[k] == f.configs[k])
  {
    if NormalizeAll(specs, Normalizer(p)).Some? {
      var xs := NormalizeAll(specs, Normalizer(p)).value;
      NormalizedDistinct(specs, Normalizer(p));
      ApplyAllExact(f, xs, faults);
    }
  }

  /** Exactly the listed interfaces are marked, each with the rendering of its specification. */
  predicate Settled(f: Files, xs: seq<Spec>) {
    && f.markers == Interfaces(xs)
    && forall i | 0 <= i < |xs| ::
         Component(xs[i].iface) && xs[i].iface in f.configs && f.configs[xs[i].iface] == Rendered(xs[i])
  }

  lemma SyncSettles(f: Files, specs: seq<Spec>, p: Parsers, faults: nat -> Fault, stuck: string -> Stuck)
    requires Synced(f, specs, p, faults, stuck).1 && forall k :: stuck(k) == Stuck(false, false)
    ensures NormalizeAll(specs, Normalizer(p)).Some? &&
            Settled(Synced(f, specs, p, faults, stuck).0, NormalizeAll(specs, Normalizer(p)).value)
  {
    SyncConverges(f, specs, p, faults, stuck);
    var xs := NormalizeAll(specs, Normalizer(p)).value;
    assert forall i | 0 <= i < |xs| :: xs[i].iface in Interfaces(xs);
  }

  lemma SettledIsClear(f: Files, xs: seq<Spec>)
    requires Settled(f, xs)
    ensures Clear(f, xs)
  {
    assert forall i | 0 <= i < |xs| :: xs[i].iface in Interfaces(xs);
  }

  lemma RenderedStays(f: Files, g: Files, xs: seq<Spec>)
    requires f.markers == Interfaces(xs) && g.markers == f.markers + Interfaces(xs)
    requires g.configs.Keys == f.configs.Keys + Interfaces(xs)
    requires forall i | 0 <= i < |xs| :: xs[i].iface in f.configs && f.configs[xs[i].iface] == Rendered(xs[i])
    requires forall i | 0 <= i < |xs| :: xs[i].iface in g.configs && g.configs[xs[i].iface] == Rendered(xs[i])
    requires forall k | k in f.configs && k !in Interfaces(xs) :: g.configs[k] == f.configs[k]
    ensures g == f
  {
    var named := Interfaces(xs);
    assert g.configs.Keys == f.configs.Keys;
    forall k | k in f.configs ensures g.configs[k] == f.configs[k] {
      if k in named { var i :| 0 <= i < |xs| && xs[i].iface == k; }
    }
    assert g.configs == f.configs;
  }

  lemma SettledStays(f: Files, xs: seq<Spec>, faults: nat -> Fault)
    requires Settled(f, xs) && forall i, j | 0 <= i < j < |xs| :: xs[i].iface != xs[j].iface
    requires Faultless(faults, |xs|)
    ensures ApplyAll(f, xs, faults) == (f, true)
  {
    SettledIsClear(f, xs);
    ApplyAllExact(f, xs, faults);
    var g := ApplyAll(f, xs, faults).0;
    assert forall i | 0 <= i < |xs| :: xs[i].iface in Interfaces(xs);
    RenderedStays(f, g, xs);
  }

  /** A second sync with the same list changes no file. */
  lemma SyncIdempotent(f: Files, specs: seq<Spec>, p: Parsers, faults: nat -> Fault, stuck: string -> Stuck,
                       faults': nat -> Fault, stuck': string -> Stuck)
    requires Synced(f, specs, p, faults, stuck).1 && forall k :: stuck(k) == Stuck(false, false)
    requires Faultless(faults', |specs|)
    ensures Synced(Synced(f, specs, p, faults, stuck).0, specs, p, faults', stuck') ==
            Synced(f, specs, p, faults, stuck)
  {
    SyncSettles(f, specs, p, faults, stuck);
    NormalizedLength(specs, Normalizer(p));
    NormalizedDistinct(specs, Normalizer(p));
    var g, xs := Synced(f, specs, p, faults, stuck).0, NormalizeAll(specs, Normalizer(p)).value;
    SettledStays(g, xs, faults');
    RemoveNothing(g, Interfaces(xs), stuck');
  }

  lemma {:induction false} ApplyAllGrows(f: Files, xs: seq<Spec>, faults: nat -> Fault)
    ensures var g := ApplyAll(f, xs, faults).0; f.configs.Keys <= g.configs.Keys && f.markers <= g.markers
    ensures forall k | Unmanaged(f, k) :: Unmanaged(ApplyAll(f, xs, faults).0, k) &&
              ApplyAll(f, xs, faults).0.configs[k] == f.configs[k]
  {
    if xs != [] { ApplyAllGrows(f, xs[..|xs| - 1], faults); }
  }

  /** A sync that fails removes nothing; when the list is at fault it changes nothing. */
  lemma FailureRemovesNothing(f: Files, specs: seq<Spec>, p: Parsers, faults: nat -> Fault, stuck: string -> Stuck)
    requires !Synced(f, specs, p, faults, stuck).1
    ensures var g := Synced(f, specs, p, faults, stuck).0; f.configs.Keys <= g.configs.Keys && f.markers <= g.markers
    ensures NormalizeAll(specs, Normalizer(p)).None? ==> Synced(f, specs, p, faults, stuck).0 == f
  {
    if NormalizeAll(specs, Normalizer(p)).Some? { ApplyAllGrows(f, NormalizeAll(specs, Normalizer(p)).value, faults); }
  }

  /** Whatever happens, a configuration without a marker keeps its content and gets no marker. */
  lemma UnmanagedUntouched(f: Files, specs: seq<Spec>, p: Parsers, faults: nat -> Fault, stuck: string -> Stuck,
                           k: string)
    requires Unmanaged(f, k)
    ensures var g := Synced(f, specs, p, faults, stuck).0; Unmanaged(g, k) && g.configs[k] == f.configs[k]
  {
    if NormalizeAll(specs, Normalizer(p)).Some? { ApplyAllGrows(f, NormalizeAll(specs, Normalizer(p)).value, faults); }
  }

  /** One call of the sync and how it goes. */
  datatype Call = Call(specs: seq<Spec>, p: Parsers, faults: nat -> Fault, stuck: string -> Stuck)

  function Outcome(f: Files, c: Call): (Files, bool) {
    Synced(f, c.specs, c.p, c.faults, c.stuck)
  }

  /** The files after a sequence of syncs. */
  function AfterCalls(f: Files, calls: seq<Call>): Files {
    if calls == [] then f else Outcome(AfterCalls(f, calls[..|calls| - 1]), calls[|calls| - 1]).0
  }

  lemma {:induction false} UnmanagedForGood(f: Files, calls: seq<Call>, k: string)
    requires Unmanaged(f, k)
    ensures Unmanaged(AfterCalls(f, calls), k) && AfterCalls(f, calls).configs[k] == f.configs[k]
  {
    if calls != [] {
      var init, c := calls[..|calls| - 1], calls[|calls| - 1];
      UnmanagedForGood(f, init, k);
      UnmanagedUntouched(AfterCalls(f, init), c.specs, c.p, c.faults, c.stuck, k);
    }
  }

  lemma UnmanagedBlocks(f: Files, c: Call, iface: string, i: nat)
    requires Unmanaged(f, iface) && i < |c.specs| && Trim(c.specs[i].iface) == iface
    ensures !Outcome(f, c).1
  {
    SyncConverges(f, c.specs, c.p, c.faults, c.stuck);
    if NormalizeAll(c.specs, Normalizer(c.p)).Some? {
      NormalizedLength(c.specs, Normalizer(c.p));
      NormalizedAt(c.specs, Normalizer(c.p), i);
      assert NormalizeAll(c.specs, Normalizer(c.p)).value[i].iface == iface;
    }
  }

  /** When a marker write fails without a trace, the configuration just written counts as somebody else's: after any
      sequence of syncs it is still there as written, and no sync that lists the interface succeeds. */
  lemma LostMarkerBlocks(f: Files, x: Spec, calls: seq<Call>, c: Call, i: nat)
    requires Component(x.iface) && x.iface !in f.configs && x.iface !in f.markers
    requires i < |c.specs| && Trim(c.specs[i].iface) == x.iface
    ensures var g := AfterCalls(Applied(f, x, MarkerFails(false)).0, calls);
            && x.iface in g.configs && g.configs[x.iface] == Rendered(x) && x.iface !in g.markers
            && !Outcome(g, c).1
  {
    var g := Applied(f, x, MarkerFails(false)).0;
    UnmanagedForGood(g, calls, x.iface);
    UnmanagedBlocks(AfterCalls(g, calls), c, x.iface, i);
  }
}
