/** Port allocation for outbound health probes (internal/panel/outbound_health.go). */
module HealthPorts {
  import opened Wrappers
  import opened Lists
  import opened Sorting
  import opened Entities

  const PORT_MIN := 30000
  const PORT_MAX := 39999

  datatype Probe = Probe(outboundId: string, inboundTag: string, outboundTag: string, port: int)

  /** What the allocator keeps of an outbound. */
  datatype Candidate = Candidate(id: string, tag: string)

  predicate Probeable(o: Outbound, nodeId: string) {
    o.nodeId == nodeId && o.enabled && o.protocol != "blackhole"
  }

  function CandidatesOf(xs: seq<Outbound>, nodeId: string): seq<Candidate> {
    if xs == [] then []
    else CandidatesOf(xs[..|xs| - 1], nodeId) +
         (var o := xs[|xs| - 1]; if Probeable(o, nodeId) then [Candidate(o.id, o.tag)] else [])
  }

  predicate ById(a: Candidate, b: Candidate) {
    LexLe(a.id, b.id)
  }

  function UsedPorts(xs: seq<Inbound>, nodeId: string): set<int> {
    set x | x in xs && x.nodeId == nodeId && x.enabled :: x.port
  }

  /** The free ports from `lo` on, in increasing order. */
  function FreeFrom(lo: int, used: set<int>): seq<int>
    decreases PORT_MAX + 1 - lo
  {
    if lo > PORT_MAX then []
    else if lo in used then FreeFrom(lo + 1, used)
    else [lo] + FreeFrom(lo + 1, used)
  }

  function HealthInboundTag(id: string): string {
    "gb-health-" + id
  }

  function ProbeAt(c: Candidate, port: int): Probe {
    Probe(c.id, HealthInboundTag(c.id), c.tag, port)
  }

  /** The k-th candidate by identifier gets the k-th smallest free port. */
  function Assign(cs: seq<Candidate>, free: seq<int>): Option<seq<Probe>> {
    if |cs| > |free| then None
    else Some(seq(|cs|, i requires 0 <= i < |cs| => ProbeAt(cs[i], free[i])))
  }

  function Ranked(st: State, nodeId: string): seq<Candidate> {
    StableSort(CandidatesOf(st.outbounds, nodeId), ById)
  }

  function Free(st: State, nodeId: string): seq<int> {
    FreeFrom(PORT_MIN, UsedPorts(st.inbounds, nodeId))
  }

  function Probes(st: State, nodeId: string): Option<seq<Probe>> {
    Assign(Ranked(st, nodeId), Free(st, nodeId))
  }

  /** The first two loops of buildOutboundHealthProbes. */
  method Collect(st: State, nodeId: string) returns (used: set<int>, candidates: seq<Candidate>)
    ensures used == UsedPorts(st.inbounds, nodeId)
    ensures candidates == CandidatesOf(st.outbounds, nodeId)
  {
    used := {};
    for i := 0 to |st.inbounds|
      invariant used == UsedPorts(st.inbounds[..i], nodeId)
    {
      var x := st.inbounds[i];
      assert st.inbounds[..i + 1] == st.inbounds[..i] + [x];
      if x.nodeId == nodeId && x.enabled {
        used := used + {x.port};
      }
    }
    assert st.inbounds[..|st.inbounds|] == st.inbounds;
    candidates := [];
    for i := 0 to |st.outbounds|
      invariant candidates == CandidatesOf(st.outbounds[..i], nodeId)
    {
      var x := st.outbounds[i];
      assert st.outbounds[..i + 1][..i] == st.outbounds[..i];
      if Probeable(x, nodeId) {
        candidates := candidates + [Candidate(x.id, x.tag)];
      }
    }
    assert st.outbounds[..|st.outbounds|] == st.outbounds;
  }

  /** buildOutboundHealthProbes: the loop with `next` and `usedPorts` allocates canonically. */
  method BuildProbes(st: State, nodeId: string) returns (r: Option<seq<Probe>>)
    ensures r == Probes(st, nodeId)
  {
    var used, candidates := Collect(st, nodeId);
    candidates := StableSort(candidates, ById);
    r := Allocate(candidates, used);
  }

  /** The inner loop: the next port that is not used. */
  method NextFree(start: int, used: set<int>) returns (next: int)
    requires PORT_MIN <= start <= PORT_MAX + 1
    ensures start <= next <= PORT_MAX + 1 && (next <= PORT_MAX ==> next !in used)
    ensures FreeFrom(next, used) == FreeFrom(start, used)
  {
    next := start;
    while next <= PORT_MAX && next in used
      invariant start <= next <= PORT_MAX + 1
      invariant FreeFrom(next, used) == FreeFrom(start, used)
    {
      next := next + 1;
    }
  }

  lemma FreeSkips(lo: int, used: set<int>)
    ensures FreeFrom(lo + 1, used + {lo}) == FreeFrom(lo + 1, used)
  {
    FreeAbove(lo + 1, used + {lo}, used);
  }

  /** Ports below the start do not matter. */
  lemma {:induction false} FreeAbove(lo: int, a: set<int>, b: set<int>)
    requires forall p | lo <= p :: p in a <==> p in b
    ensures FreeFrom(lo, a) == FreeFrom(lo, b)
    decreases PORT_MAX + 1 - lo
  {
    if lo <= PORT_MAX { FreeAbove(lo + 1, a, b); }
  }

  method Allocate(cs: seq<Candidate>, taken: set<int>) returns (r: Option<seq<Probe>>)
    ensures r == Assign(cs, FreeFrom(PORT_MIN, taken))
  {
    ghost var free := FreeFrom(PORT_MIN, taken);
    var used := taken;
    var next := PORT_MIN;
    var probes: seq<Probe> := [];
    for i := 0 to |cs|
      invariant PORT_MIN <= next <= PORT_MAX + 1
      invariant |probes| == i <= |free| && FreeFrom(next, used) == free[i..]
      invariant forall k | 0 <= k < i :: probes[k] == ProbeAt(cs[k], free[k])
    {
      next := NextFree(next, used);
      if next > PORT_MAX {
        assert |free[i..]| == 0;
        return None;
      }
      assert free[i] == next && free[i..][1..] == free[i + 1..];
      FreeSkips(next, used);
      used := used + {next};
      probes := probes + [ProbeAt(cs[i], next)];
      next := next + 1;
    }
    r := Some(probes);
    assert probes == Assign(cs, free).value;
  }

  /** outboundHealthProbeFor */
  function ProbeFor(st: State, nodeId: string, id: string): Option<Probe> {
    match Probes(st, nodeId)
    case None => None
    case Some(ps) => Find(ps, (p: Probe) => p.outboundId, id)
  }

  // ---------- the allocation is sound, complete and canonical ----------

  /** FreeFrom lists exactly the unused ports of the range, each once, in increasing order. */
  lemma {:induction false} FreeExact(lo: int, used: set<int>)
    ensures forall p :: p in FreeFrom(lo, used) <==> lo <= p <= PORT_MAX && p !in used
    ensures forall i, j | 0 <= i < j < |FreeFrom(lo, used)| :: FreeFrom(lo, used)[i] < FreeFrom(lo, used)[j]
    decreases PORT_MAX + 1 - lo
  {
    if lo <= PORT_MAX {
      FreeExact(lo + 1, used);
      var rest := FreeFrom(lo + 1, used);
      forall j | 0 <= j < |rest| ensures lo < rest[j] { assert rest[j] in rest; }
    }
  }

  /** Ports are distinct, in range and not those of an enabled inbound, each probe names a candidate, and
      allocation fails exactly when the candidates outnumber the free ports. */
  lemma AllocationSound(st: State, nodeId: string)
    ensures Probes(st, nodeId).None? <==> |Ranked(st, nodeId)| > |Free(st, nodeId)|
    ensures Probes(st, nodeId).Some? ==>
              var ps := Probes(st, nodeId).value;
              && |ps| == |Ranked(st, nodeId)|
              && (forall i | 0 <= i < |ps| :: 30000 <= ps[i].port <= 39999)
              && (forall i, x | 0 <= i < |ps| && x in st.inbounds && x.nodeId == nodeId && x.enabled ::
                    ps[i].port != x.port)
              && (forall i, j | 0 <= i < j < |ps| :: ps[i].port < ps[j].port)
              && (forall p | 30000 <= p <= 39999 && p !in UsedPorts(st.inbounds, nodeId) ::
                    (exists i :: 0 <= i < |ps| && ps[i].port == p) || (forall i | 0 <= i < |ps| :: ps[i].port < p))
  {
    var used := UsedPorts(st.inbounds, nodeId);
    var free := Free(st, nodeId);
    FreeExact(PORT_MIN, used);
    if Probes(st, nodeId).Some? {
      var ps := Probes(st, nodeId).value;
      forall i | 0 <= i < |ps| ensures ps[i].port == free[i] && free[i] in free {}
      forall p | PORT_MIN <= p <= PORT_MAX && p !in used
        ensures (exists i :: 0 <= i < |ps| && ps[i].port == p) || (forall i | 0 <= i < |ps| :: ps[i].port < p)
      {
        assert p in free;
        var k :| 0 <= k < |free| && free[k] == p;
        if k < |ps| { assert ps[k].port == p; }
      }
    }
  }

  lemma SameHead(a: seq<Candidate>, b: seq<Candidate>)
    requires multiset(a) == multiset(b) && a != [] && b != []
    requires Sorted(a, ById) && Sorted(b, ById)
    ensures a[0] in b && b[0] in a && a[0].id == b[0].id
  {
    assert a[0] in multiset(b) && b[0] in multiset(a);
    var i :| 0 <= i < |b| && b[i] == a[0];
    var j :| 0 <= j < |a| && a[j] == b[0];
    LexTotal(a[0].id, a[0].id);
    assert ById(b[0], a[0]) by { if i > 0 { assert ById(b[0], b[i]); } }
    assert ById(a[0], b[0]) by { if j > 0 { assert ById(a[0], a[j]); } }
    LexAntisymmetric(a[0].id, b[0].id);
  }

  lemma {:induction false} SortedCanonical(a: seq<Candidate>, b: seq<Candidate>)
    requires multiset(a) == multiset(b)
    requires Sorted(a, ById) && Sorted(b, ById)
    requires forall x, y | x in a && y in a && x.id == y.id :: x == y
    ensures a == b
  {
    assert |multiset(a)| == |a| && |multiset(b)| == |b|;
    if a != [] {
      SameHead(a, b);
      assert a == [a[0]] + a[1..] && b == [b[0]] + b[1..];
      assert multiset(a[1..]) == multiset(a) - multiset{a[0]};
      assert multiset(b[1..]) == multiset(b) - multiset{b[0]};
      SortedTail(a);
      SortedTail(b);
      assert forall x | x in a[1..] :: x in a;
      SortedCanonical(a[1..], b[1..]);
    }
  }

  lemma SortedTail(a: seq<Candidate>)
    requires a != [] && Sorted(a, ById)
    ensures Sorted(a[1..], ById)
  {
    forall i, j | 0 <= i < j < |a[1..]| ensures ById(a[1..][i], a[1..][j]) {
      assert ById(a[i + 1], a[j + 1]);
    }
  }

  /** Neither the order in which outbounds are stored nor their health fields matter: any two states that agree on
      the candidates and on the occupied ports give the same probes, so a later lookup names the deployed port. */
  lemma AllocationCanonical(st: State, st': State, nodeId: string)
    requires multiset(CandidatesOf(st.outbounds, nodeId)) == multiset(CandidatesOf(st'.outbounds, nodeId))
    requires forall x, y | x in CandidatesOf(st.outbounds, nodeId) && y in CandidatesOf(st.outbounds, nodeId) ::
               x.id == y.id ==> x == y
    requires UsedPorts(st.inbounds, nodeId) == UsedPorts(st'.inbounds, nodeId)
    ensures Probes(st, nodeId) == Probes(st', nodeId)
    ensures forall id :: ProbeFor(st, nodeId, id) == ProbeFor(st', nodeId, id)
  {
    var a, b := CandidatesOf(st.outbounds, nodeId), CandidatesOf(st'.outbounds, nodeId);
    ByIdPreorder();
    SortCorrect(a, ById);
    SortCorrect(b, ById);
    forall x, y | x in StableSort(a, ById) && y in StableSort(a, ById) && x.id == y.id ensures x == y {
      assert x in multiset(StableSort(a, ById)) && y in multiset(StableSort(a, ById));
    }
    SortedCanonical(StableSort(a, ById), StableSort(b, ById));
  }

  lemma ByIdPreorder()
    ensures TotalPreorder(ById)
  {
    forall x, y ensures ById(x, y) || ById(y, x) { LexTotal(x.id, y.id); }
    forall x, y, z | ById(x, y) && ById(y, z) ensures ById(x, z) { LexTransitive(x.id, y.id, z.id); }
  }
}
