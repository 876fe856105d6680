/** Address allocation on byte strings: internal/panel/operations.go (incIP, derivePair) and
    internal/panel/accounting.go (nextWGAddress, validateWGClientAddress). */
module WgAddress {
  import opened Wrappers
  import opened Bytes

  // ---------- increment ----------

  function Incremented(s: seq<byte>): (r: seq<byte>)
    ensures |r| == |s|
  {
    if s == [] then []
    else
      var init, last := s[..|s| - 1], s[|s| - 1];
      if last == 255 then Incremented(init) + [0] else init + [last + 1]
  }

  /** incIP adds one, and goes from the last address to the first. */
  lemma {:induction false} IncrementAddsOne(s: seq<byte>)
    ensures Value(Incremented(s)) == if Value(s) + 1 == Range(|s|) then 0 else Value(s) + 1
  {
    if s != [] {
      var n := |s| - 1;
      var init, r := s[..n], Incremented(s);
      ValueBound(init);
      if s[n] == 255 {
        assert r[..n] == Incremented(init) && r[n] == 0;
        IncrementAddsOne(init);
      } else {
        assert r[..n] == init && r[n] == s[n] + 1;
      }
    }
  }

  /** Overflow of the last byte carries into the rest. */
  lemma CarryStep(s: seq<byte>, n: nat)
    requires n < |s|
    ensures Incremented(s[..n + 1]) ==
            if s[n] == 255 then Incremented(s[..n]) + [0] else s[..n] + [s[n] + 1]
  {
    assert s[..n + 1][..n] == s[..n];
  }

  function Carried(s: seq<byte>, j: nat): seq<byte>
    requires j < |s|
  {
    s[j := if s[j] == 255 then 0 else s[j] + 1]
  }

  /** A last byte and what follows it, put together. */
  lemma Splice(whole: seq<byte>, head: seq<byte>, mid: byte, tail: seq<byte>, next: seq<byte>, j: nat)
    requires whole == head + [mid] + tail && j < |next| && next[j] == mid && next[j + 1..] == tail
    ensures whole == head + next[j..]
    ensures head == next[..j] ==> whole == next
  {
    assert [mid] + tail == next[j..];
  }

  lemma PrefixAgrees(was: seq<byte>, cur: seq<byte>, j: nat)
    requires j < |was| == |cur| && cur[..j + 1] == was[..j + 1]
    ensures cur[j] == was[j] && Carried(cur, j)[..j] == was[..j]
    ensures Carried(cur, j)[j + 1..] == cur[j + 1..]
  {
    assert was[..j + 1][j] == was[j] && was[..j + 1][..j] == was[..j] && cur[..j + 1][..j] == cur[..j];
  }

  /** One step of the loop: `carried` is position j added to what lies below it, and `whole` that with the tail. */
  lemma CarryAt(whole: seq<byte>, carried: seq<byte>, below: seq<byte>, was: seq<byte>, cur: seq<byte>, j: nat)
    requires j < |was| == |cur| && cur[..j + 1] == was[..j + 1] && whole == carried + cur[j + 1..]
    requires carried == if was[j] == 255 then below + [0] else was[..j] + [was[j] + 1]
    ensures cur[j] == was[j] && Carried(cur, j)[..j] == was[..j]
    ensures whole == if cur[j] == 255 then below + Carried(cur, j)[j..] else Carried(cur, j)
  {
    var next := Carried(cur, j);
    PrefixAgrees(was, cur, j);
    if cur[j] == 255 {
      Splice(whole, below, 0, cur[j + 1..], next, j);
    } else {
      Splice(whole, was[..j], cur[j] + 1, cur[j + 1..], next, j);
    }
  }

  method IncIP(ip: array<byte>)
    modifies ip
    ensures ip[..] == Incremented(old(ip[..]))
  {
    ghost var was := ip[..];
    var j := ip.Length - 1;
    assert was[..j + 1] == was;
    while j >= 0
      invariant -1 <= j < ip.Length == |was|
      invariant ip[..][..j + 1] == was[..j + 1]
      invariant Incremented(was) == Incremented(was[..j + 1]) + ip[..][j + 1..]
    {
      ghost var cur := ip[..];
      CarryStep(was, j);
      CarryAt(Incremented(was), Incremented(was[..j + 1]), Incremented(was[..j]), was, cur, j);
      ip[j] := if ip[j] == 255 then 0 else ip[j] + 1;
      assert ip[..] == Carried(cur, j);
      if ip[j] != 0 {
        break;
      }
      j := j - 1;
    }
  }

  /** The address k steps on. */
  function Nth(s: seq<byte>, k: nat): (r: seq<byte>)
    ensures |r| == |s|
  {
    if k == 0 then s else Incremented(Nth(s, k - 1))
  }

  lemma {:induction false} NthValue(s: seq<byte>, k: nat)
    requires k <= Range(|s|)
    ensures Value(Nth(s, k)) == if Value(s) + k < Range(|s|) then Value(s) + k else Value(s) + k - Range(|s|)
  {
    ValueBound(s);
    if k > 0 {
      NthValue(s, k - 1);
      IncrementAddsOne(Nth(s, k - 1));
    }
  }

  // ---------- networks ----------

  /** An address with its prefix length, as net.ParseCIDR returns it; IPv4 addresses have 4 bytes. */
  datatype Cidr = Cidr(ip: seq<byte>, ones: nat)

  const MAPPED: seq<byte> := [0, 0, 0, 0, 0, 0, 0, 0, 0, 0, 255, 255]

  predicate IsMapped(a: seq<byte>) {
    |a| == 16 && a[..12] == MAPPED
  }

  /** The four-byte form where there is one. */
  function Canonical(a: seq<byte>): seq<byte> {
    if IsMapped(a) then a[12..] else a
  }

  predicate ValidCidr(c: Cidr) {
    (|c.ip| == 4 || |c.ip| == 16) && !IsMapped(c.ip) && c.ones <= 8 * |c.ip|
  }

  function HostBits(c: Cidr): nat {
    if c.ones <= 8 * |c.ip| then 8 * |c.ip| - c.ones else 0
  }

  function Pow2(k: nat): (r: nat)
    ensures r > 0
  {
    if k == 0 then 1 else 2 * Pow2(k - 1)
  }

  /** The number with its low k bits cleared. */
  function Clear(x: nat, k: nat): nat {
    if k == 0 then x else 2 * Clear(x / 2, k - 1)
  }

  lemma {:induction false} ClearFits(x: nat, k: nat, j: nat)
    requires k <= j && x < Pow2(j)
    ensures Clear(x, k) <= x < Clear(x, k) + Pow2(k) <= Pow2(j)
  {
    if k > 0 { ClearFits(x / 2, k - 1, j - 1); }
  }

  lemma {:induction false} ClearMultiple(x: nat, k: nat) returns (q: nat)
    ensures Clear(x, k) == q * Pow2(k)
  {
    if k == 0 {
      q := x;
    } else {
      q := ClearMultiple(x / 2, k - 1);
      assert 2 * (q * Pow2(k - 1)) == q * (2 * Pow2(k - 1));
    }
  }

  lemma {:induction false} Pow2Split(k: nat, n: nat)
    requires k <= n
    ensures Pow2(n) == Pow2(n - k) * Pow2(k)
  {
    if k > 0 { Pow2Split(k - 1, n - 1); }
  }

  lemma EightBits()
    ensures Pow2(8) == 256
  {
    assert Pow2(8) == 2 * Pow2(7) == 4 * Pow2(6) == 8 * Pow2(5) == 16 * Pow2(4);
  }

  /** How many bits of a byte are among the low `host` bits. */
  function Bits(host: int): (k: nat)
    ensures k <= 8
  {
    if host <= 0 then 0 else if host >= 8 then 8 else host
  }

  function Low(host: int): (r: nat)
    ensures 1 <= r <= 256 && (host <= 0 ==> r == 1) && (host >= 8 ==> r == 256)
  {
    EightBits();
    Pow2Split(Bits(host), 8);
    assert Pow2(8 - Bits(host)) * Pow2(Bits(host)) >= Pow2(Bits(host));
    Pow2(Bits(host))
  }

  function ClearByte(x: byte, host: int): (r: byte)
    ensures r <= x < r + Low(host) && r + Low(host) <= 256
  {
    EightBits();
    ClearFits(x, Bits(host), 8);
    Clear(x, Bits(host))
  }

  /** The address with its low host bits cleared; byte i from the right has host - 8 * i of them. */
  function ClearHost(a: seq<byte>, host: int): (r: seq<byte>)
    ensures |r| == |a|
  {
    if a == [] then [] else ClearHost(a[..|a| - 1], host - 8) + [ClearByte(a[|a| - 1], host)]
  }

  function FillHost(a: seq<byte>, host: int): (r: seq<byte>)
    ensures |r| == |a|
  {
    if a == [] then [] else FillHost(a[..|a| - 1], host - 8) + [ClearByte(a[|a| - 1], host) + Low(host) - 1]
  }

  /** IPNet.Contains: the address and the network agree under the mask (section 3.1 of RFC 4632). */
  predicate Contains(c: Cidr, a: seq<byte>) {
    |Canonical(a)| == |c.ip| && ClearHost(Canonical(a), HostBits(c)) == NetworkOf(c)
  }

  /** IPNet.IP */
  function NetworkOf(c: Cidr): seq<byte> {
    ClearHost(c.ip, HostBits(c))
  }

  /** Bitwise or of two numbers. */
  function Or(a: nat, b: nat): nat {
    if a == 0 && b == 0 then 0 else (if a % 2 == 1 || b % 2 == 1 then 1 else 0) + 2 * Or(a / 2, b / 2)
  }

  lemma {:induction false} OrFills(x: nat, k: nat)
    ensures Or(Clear(x, k), Pow2(k) - 1) == Clear(x, k) + Pow2(k) - 1
  {
    if k == 0 {
      OrZero(x);
    } else {
      OrFills(x / 2, k - 1);
      assert Clear(x, k) / 2 == Clear(x / 2, k - 1) && (Pow2(k) - 1) / 2 == Pow2(k - 1) - 1;
    }
  }

  lemma {:induction false} OrZero(a: nat)
    ensures Or(a, 0) == a
  {
    if a > 0 { OrZero(a / 2); }
  }

  /** The byte of the network mask that leaves k host bits. */
  function MaskByte(k: int): byte {
    256 - Low(k)
  }

  /** base | ^mask at byte i */
  function BroadcastByte(c: Cidr, i: nat): nat
    requires |c.ip| == 4 && i < 4
  {
    Or(NetworkOf(c)[i], 255 - MaskByte(HostBits(c) - 8 * (3 - i)))
  }

  /** isIPv4Broadcast */
  predicate IsBroadcast(a: seq<byte>, c: Cidr) {
    var v := Canonical(a);
    && |v| == 4 && |c.ip| == 4
    && v[0] == BroadcastByte(c, 0) && v[1] == BroadcastByte(c, 1) && v[2] == BroadcastByte(c, 2) &&
       v[3] == BroadcastByte(c, 3)
  }

  // ---------- what network and broadcast addresses are as numbers ----------

  /** The size of a network with that many host bits. */
  function Size(host: int): (r: nat)
    ensures r > 0
    decreases if host > 0 then host else 0
  {
    if host < 8 then Low(host) else 256 * Size(host - 8)
  }

  lemma {:induction false} ClearNothing(a: seq<byte>, host: int)
    requires host <= 0
    ensures ClearHost(a, host) == a && FillHost(a, host) == a
  {
    if a != [] {
      ClearNothing(a[..|a| - 1], host - 8);
      assert a == a[..|a| - 1] + [a[|a| - 1]];
    }
  }

  /** A network is Size(host) consecutive numbers from its cleared address on. */
  lemma {:induction false} ClearedAndFilled(a: seq<byte>, host: int)
    requires host <= 8 * |a|
    ensures Value(ClearHost(a, host)) <= Value(a)
    ensures Value(a) <= Value(FillHost(a, host)) == Value(ClearHost(a, host)) + Size(host) - 1
  {
    if a != [] {
      var n := |a| - 1;
      var lo, hi := ClearHost(a, host), FillHost(a, host);
      assert lo[..n] == ClearHost(a[..n], host - 8) && hi[..n] == FillHost(a[..n], host - 8);
      if host < 8 {
        ClearNothing(a[..n], host - 8);
      } else {
        ClearedAndFilled(a[..n], host - 8);
      }
    }
  }

  lemma {:induction false} SizeOfAll(n: nat)
    ensures Size(8 * n) == Range(n)
  {
    if n > 0 { SizeOfAll(n - 1); }
  }

  lemma {:induction false} ClearedIsMultiple(a: seq<byte>, host: int) returns (q: nat)
    requires 0 <= host <= 8 * |a|
    ensures Value(ClearHost(a, host)) == q * Size(host)
  {
    var n := |a| - 1;
    var lo := ClearHost(a, host);
    if host == 0 {
      q := Value(lo);
    } else {
      assert lo[..n] == ClearHost(a[..n], host - 8);
      if host < 8 {
        q := DivideOut(Value(lo[..n]), a[n], host);
      } else {
        q := ClearedIsMultiple(a[..n], host - 8);
        TimesByte(q, Size(host - 8));
      }
    }
  }

  lemma TimesByte(q: nat, size: nat)
    ensures q * (256 * size) == 256 * (q * size)
  {
  }

  lemma Regroup(m: nat, size: nat, v: nat, p: nat)
    requires m * size == 256
    ensures (m * v + p) * size == 256 * v + p * size
  {
    assert (m * v) * size == (m * size) * v;
  }

  lemma DivideOut(v: nat, x: byte, k: int) returns (q: nat)
    requires 0 < k < 8
    ensures 256 * v + ClearByte(x, k) == q * Size(k)
  {
    var p := ClearMultiple(x, k);
    EightBits();
    Pow2Split(k, 8);
    Regroup(Pow2(8 - k), Pow2(k), v, p);
    q := Pow2(8 - k) * v + p;
  }

  lemma MultiplesApart(p: nat, q: nat, size: nat)
    requires p < q
    ensures p * size + size <= q * size
  {
    assert (p + 1) * size <= q * size;
  }

  /** Same cleared address exactly when in the same stretch of numbers. */
  lemma ClearedSame(a: seq<byte>, b: seq<byte>, host: int)
    requires |a| == |b| && 0 <= host <= 8 * |a|
    ensures ClearHost(a, host) == ClearHost(b, host) <==>
            Value(ClearHost(b, host)) <= Value(a) < Value(ClearHost(b, host)) + Size(host)
  {
    ClearedAndFilled(a, host);
    ClearedAndFilled(b, host);
    var p := ClearedIsMultiple(a, host);
    var q := ClearedIsMultiple(b, host);
    if p < q { MultiplesApart(p, q, Size(host)); }
    if q < p { MultiplesApart(q, p, Size(host)); }
    if p == q { ValueInjective(ClearHost(a, host), ClearHost(b, host)); }
  }

  lemma FilledByte(x: byte, k: int)
    ensures Or(ClearByte(x, k), 255 - MaskByte(k)) == ClearByte(x, k) + Low(k) - 1
  {
    OrFills(x, Bits(k));
  }

  lemma FillHostAt(a: seq<byte>, host: int, i: nat)
    requires i < |a|
    ensures var k := host - 8 * (|a| - 1 - i);
            ClearHost(a, host)[i] == ClearByte(a[i], k) && FillHost(a, host)[i] == ClearByte(a[i], k) + Low(k) - 1
  {
    if i < |a| - 1 { FillHostAt(a[..|a| - 1], host - 8, i); }
  }

  lemma BroadcastByteIsFilled(c: Cidr, i: nat)
    requires |c.ip| == 4 && i < 4
    ensures BroadcastByte(c, i) == FillHost(c.ip, HostBits(c))[i]
  {
    FillHostAt(c.ip, HostBits(c), i);
    FilledByte(c.ip[i], HostBits(c) - 8 * (3 - i));
  }

  lemma FourEqual(a: seq<byte>, b: seq<byte>)
    requires |a| == 4 && |b| == 4
    ensures a == b <==> a[0] == b[0] && a[1] == b[1] && a[2] == b[2] && a[3] == b[3]
  {
  }

  lemma BroadcastIsFilled(a: seq<byte>, c: Cidr)
    requires |c.ip| == 4 && |a| == 4
    ensures IsBroadcast(a, c) <==> a == FillHost(c.ip, HostBits(c))
  {
    FourEqual(a, FillHost(c.ip, HostBits(c)));
    BroadcastByteIsFilled(c, 0);
    BroadcastByteIsFilled(c, 1);
    BroadcastByteIsFilled(c, 2);
    BroadcastByteIsFilled(c, 3);
  }

  function First(c: Cidr): nat { Value(NetworkOf(c)) }

  /** The network address is the least, and the IPv4 broadcast address the greatest, address of the network. */
  lemma ReservedAddresses(c: Cidr, a: seq<byte>)
    requires ValidCidr(c) && |c.ip| == 4 && |a| == 4
    ensures Contains(c, a) <==> First(c) <= Value(a) < First(c) + Size(HostBits(c))
    ensures a == NetworkOf(c) <==> Value(a) == First(c)
    ensures IsBroadcast(a, c) <==> Value(a) == First(c) + Size(HostBits(c)) - 1
  {
    ClearedSame(a, c.ip, HostBits(c));
    ClearedAndFilled(c.ip, HostBits(c));
    BroadcastIsFilled(a, c);
    if Value(a) == First(c) { ValueInjective(a, NetworkOf(c)); }
    if Value(a) == Value(FillHost(c.ip, HostBits(c))) { ValueInjective(a, FillHost(c.ip, HostBits(c))); }
  }

  // ---------- allocation ----------

  predicate Usable(c: Cidr, used: set<seq<byte>>, a: seq<byte>) {
    Contains(c, a) && a != NetworkOf(c) && !IsBroadcast(a, c) && a !in used
  }

  const ATTEMPTS: nat := 65536

  ghost predicate AllUpTo(p: nat -> bool, n: nat) {
    forall j: nat | 1 <= j <= n :: p(j)
  }

  ghost predicate NoneUpTo(p: nat -> bool, n: nat) {
    forall j: nat | 1 <= j <= n :: !p(j)
  }

  /** The walk finds its first hit after k steps, without having left. */
  ghost predicate FoundAt(inside: nat -> bool, hit: nat -> bool, k: nat) {
    1 <= k <= ATTEMPTS && hit(k) && AllUpTo(inside, k - 1) && NoneUpTo(hit, k - 1)
  }

  /** No hit before the walk leaves or the attempts run out. */
  ghost predicate NotFound(inside: nat -> bool, hit: nat -> bool) {
    forall k: nat | 1 <= k <= ATTEMPTS && AllUpTo(inside, k) :: !hit(k)
  }

  lemma LeftEarly(inside: nat -> bool, hit: nat -> bool, k: nat)
    requires NoneUpTo(hit, k) && !inside(k + 1)
    ensures NotFound(inside, hit)
  {
  }

  lemma OneMore(inside: nat -> bool, hit: nat -> bool, k: nat)
    requires AllUpTo(inside, k) && NoneUpTo(hit, k)
    ensures inside(k + 1) ==> AllUpTo(inside, k + 1)
    ensures !hit(k + 1) ==> NoneUpTo(hit, k + 1)
  {
  }

  /** Is the address after so many steps in the network? */
  function Inside(c: Cidr): nat -> bool {
    (k: nat) => Contains(c, Nth(c.ip, k))
  }

  /** Is it usable? */
  function Hit(c: Cidr, used: set<seq<byte>>): nat -> bool {
    (k: nat) => Usable(c, used, Nth(c.ip, k))
  }

  ghost predicate FirstUsable(c: Cidr, used: set<seq<byte>>, r: Option<seq<byte>>) {
    match r
    case Some(a) => exists k: nat :: FoundAt(Inside(c), Hit(c, used), k) && a == Nth(c.ip, k)
    case None => NotFound(Inside(c), Hit(c, used))
  }

  predicate Skipped(c: Cidr, a: seq<byte>) {
    a == NetworkOf(c) || IsBroadcast(a, c)
  }

  lemma StepFacts(c: Cidr, used: set<seq<byte>>, k: nat, a: seq<byte>)
    requires a == Nth(c.ip, k)
    ensures Inside(c)(k) == Contains(c, a)
    ensures Hit(c, used)(k) == (Contains(c, a) && !Skipped(c, a) && a !in used)
  {
  }

  method CopyOf(s: seq<byte>) returns (a: array<byte>)
    ensures fresh(a) && a[..] == s
  {
    a := new byte[|s|];
    forall i | 0 <= i < |s| { a[i] := s[i]; }
  }

  method NextAddress(c: Cidr, used: set<seq<byte>>) returns (r: Option<seq<byte>>)
    ensures FirstUsable(c, used, r)
  {
    ghost var inside, hit := Inside(c), Hit(c, used);
    var candidate := CopyOf(c.ip);
    for attempts := 0 to ATTEMPTS
      invariant candidate[..] == Nth(c.ip, attempts)
      invariant AllUpTo(inside, attempts) && NoneUpTo(hit, attempts)
    {
      IncIP(candidate);
      var a := candidate[..];
      StepFacts(c, used, attempts + 1, a);
      OneMore(inside, hit, attempts);
      if !Contains(c, a) {
        LeftEarly(inside, hit, attempts);
        return None;
      }
      if Skipped(c, a) { continue; }
      if a !in used {
        assert FoundAt(inside, hit, attempts + 1);
        return Some(a);
      }
    }
    return None;
  }

  datatype AddressError = BadClientAddress | OutsideSubnet | ReservedAddress | AddressInUse

  /** validateWGClientAddress; `client` is None when the text does not parse. */
  function ValidateClient(c: Cidr, client: Option<seq<byte>>, used: set<seq<byte>>): Result<seq<byte>, AddressError> {
    match client
    case None => Err(BadClientAddress)
    case Some(raw) =>
      var a := Canonical(raw);
      if !Contains(c, a) then Err(OutsideSubnet)
      else if a == c.ip || a == NetworkOf(c) || IsBroadcast(a, c) then Err(ReservedAddress)
      else if a in used then Err(AddressInUse)
      else Ok(a)
  }

  /** How far an IPv4 address lies ahead of the server's, going round at 255.255.255.255. */
  function Ahead(c: Cidr, a: seq<byte>): int {
    if Value(a) >= Value(c.ip) then Value(a) - Value(c.ip) else Value(a) - Value(c.ip) + 0x1_0000_0000
  }

  lemma FourBytes()
    ensures Range(4) == 0x1_0000_0000 && Size(32) == 0x1_0000_0000
  {
    assert Range(4) == 256 * Range(3) == 65536 * Range(2) == 16777216 * Range(1);
    SizeOfAll(4);
  }

  lemma NthAhead(c: Cidr, k: nat)
    requires |c.ip| == 4 && 1 <= k <= ATTEMPTS
    ensures Ahead(c, Nth(c.ip, k)) == k
  {
    FourBytes();
    NthValue(c.ip, k);
    ValueBound(c.ip);
  }

  lemma AheadIsNth(c: Cidr, a: seq<byte>)
    requires |c.ip| == 4 && |a| == 4 && 1 <= Ahead(c, a) <= ATTEMPTS
    ensures a == Nth(c.ip, Ahead(c, a))
  {
    var k := Ahead(c, a);
    FourBytes();
    NthValue(c.ip, k);
    ValueBound(c.ip);
    ValueBound(a);
    ValueInjective(a, Nth(c.ip, k));
  }

  lemma SmallSize(host: nat)
    requires host < 8
    ensures Size(host) <= 128
  {
    Pow2Split(host, 7);
    assert Pow2(7) == 2 * Pow2(6) == 4 * Pow2(5) == 8 * Pow2(4) == 16 * Pow2(3) == 128;
    assert Pow2(7 - host) * Pow2(host) >= Pow2(host);
  }

  lemma SizeAtMost(host: nat)
    requires host < 32
    ensures Size(host) <= 0x8000_0000
  {
    SmallSize(host % 8);
    if host >= 24 {
      assert Size(host) == 256 * Size(host - 8) == 65536 * Size(host - 16) == 16777216 * Size(host - 24);
    } else if host >= 16 {
      assert Size(host) == 256 * Size(host - 8) == 65536 * Size(host - 16);
    } else if host >= 8 {
      assert Size(host) == 256 * Size(host - 8);
    }
  }

  predicate InRange(c: Cidr, v: nat) {
    First(c) <= v < First(c) + Size(HostBits(c))
  }

  lemma ServerInRange(c: Cidr)
    requires ValidCidr(c) && |c.ip| == 4
    ensures InRange(c, Value(c.ip)) && First(c) + Size(HostBits(c)) <= 0x1_0000_0000
  {
    FourBytes();
    ClearedAndFilled(c.ip, HostBits(c));
    ValueBound(FillHost(c.ip, HostBits(c)));
  }

  /** The walk towards an address of the network within reach stays in the network. */
  lemma WalkStaysInside(c: Cidr, a: nat, s: nat, host: nat, k: nat, j: nat)
    requires ValidCidr(c) && |c.ip| == 4 && s == Value(c.ip) && host == HostBits(c)
    requires InRange(c, a) && 1 <= j <= k <= ATTEMPTS
    requires a == s + k || a == s + k - 0x1_0000_0000
    ensures InRange(c, if s + j < 0x1_0000_0000 then s + j else s + j - 0x1_0000_0000)
  {
    ServerInRange(c);
    if host == 32 { FourBytes(); } else { SizeAtMost(host); }
  }

  lemma WalkReaches(c: Cidr, a: seq<byte>)
    requires ValidCidr(c) && |c.ip| == 4 && |a| == 4 && Contains(c, a) && 1 <= Ahead(c, a) <= ATTEMPTS
    ensures a == Nth(c.ip, Ahead(c, a)) && AllUpTo(Inside(c), Ahead(c, a))
  {
    var k := Ahead(c, a);
    AheadIsNth(c, a);
    ReservedAddresses(c, a);
    FourBytes();
    forall j: nat | 1 <= j <= k ensures Inside(c)(j) {
      NthValue(c.ip, j);
      WalkStaysInside(c, Value(a), Value(c.ip), HostBits(c), k, j);
      ReservedAddresses(c, Nth(c.ip, j));
    }
  }

  /** Main result for IPv4: the allocator returns the first usable address after the server's, ... */
  lemma AllocatesFirst(c: Cidr, used: set<seq<byte>>, r: seq<byte>)
    requires ValidCidr(c) && |c.ip| == 4 && FirstUsable(c, used, Some(r))
    ensures |r| == 4 && Usable(c, used, r) && 1 <= Ahead(c, r) <= ATTEMPTS
    ensures forall a: seq<byte> | |a| == 4 && 1 <= Ahead(c, a) < Ahead(c, r) :: !Usable(c, used, a)
  {
    var hit := Hit(c, used);
    var k: nat :| FoundAt(Inside(c), hit, k) && r == Nth(c.ip, k);
    assert hit(k);
    NthAhead(c, k);
    forall a: seq<byte> | |a| == 4 && 1 <= Ahead(c, a) < Ahead(c, r) ensures !Usable(c, used, a) {
      AheadIsNth(c, a);
      assert !hit(Ahead(c, a));
    }
  }

  /** ... and fails exactly when none of the next 65536 addresses is usable. */
  lemma FailsExactly(c: Cidr, used: set<seq<byte>>)
    requires ValidCidr(c) && |c.ip| == 4
    ensures FirstUsable(c, used, None) <==>
            forall a: seq<byte> | |a| == 4 && 1 <= Ahead(c, a) <= 65536 :: !Usable(c, used, a)
  {
    var inside, hit := Inside(c), Hit(c, used);
    if NotFound(inside, hit) {
      forall a: seq<byte> | |a| == 4 && 1 <= Ahead(c, a) <= ATTEMPTS ensures !Usable(c, used, a) {
        if Contains(c, a) {
          WalkReaches(c, a);
          assert !hit(Ahead(c, a));
        }
      }
    }
    if forall a: seq<byte> | |a| == 4 && 1 <= Ahead(c, a) <= ATTEMPTS :: !Usable(c, used, a) {
      forall k: nat | 1 <= k <= ATTEMPTS && AllUpTo(inside, k) ensures !hit(k) { NthAhead(c, k); }
    }
  }

  lemma {:induction false} RangeMonotone(a: nat, b: nat)
    requires a <= b
    ensures Range(a) <= Range(b)
  {
    if a < b { RangeMonotone(a, b - 1); }
  }

  /** The walk does not come round to the server's address. */
  lemma WalkLeavesServer(c: Cidr, k: nat)
    requires ValidCidr(c) && 1 <= k <= ATTEMPTS
    ensures Nth(c.ip, k) != c.ip
  {
    FourBytes();
    RangeMonotone(4, |c.ip|);
    NthValue(c.ip, k);
  }

  lemma Allocated(c: Cidr, used: set<seq<byte>>, a: seq<byte>)
    requires ValidCidr(c) && FirstUsable(c, used, Some(a))
    ensures Usable(c, used, a) && a != c.ip
  {
    var k: nat :| FoundAt(Inside(c), Hit(c, used), k) && a == Nth(c.ip, k);
    assert Hit(c, used)(k);
    WalkLeavesServer(c, k);
  }

  lemma UsableIsValid(c: Cidr, used: set<seq<byte>>, a: seq<byte>)
    requires ValidCidr(c) && |a| == |c.ip| && Usable(c, used, a) && a != c.ip
    ensures ValidateClient(c, Some(a), used) == Ok(a)
  {
    assert Canonical(a) == a;
  }

  /** Validation accepts every address that the allocator returns, in both address families. */
  lemma AllocatedIsValid(c: Cidr, used: set<seq<byte>>, a: seq<byte>)
    requires ValidCidr(c) && FirstUsable(c, used, Some(a))
    ensures ValidateClient(c, Some(a), used) == Ok(a)
  {
    Allocated(c, used, a);
    UsableIsValid(c, used, a);
  }

  /** What validation accepts is a usable address of the server's family, other than the server's own. */
  lemma ValidMeansUsable(c: Cidr, client: seq<byte>, used: set<seq<byte>>)
    ensures var r := ValidateClient(c, Some(client), used);
            && (r.Ok? <==> Usable(c, used, Canonical(client)) && Canonical(client) != c.ip)
            && (r.Ok? ==> r.value == Canonical(client) && |r.value| == |c.ip|)
  {
  }

  // ---------- tunnel ends ----------

  function Sixteen(a: seq<byte>): seq<byte> {
    if |a| == 4 then MAPPED + a else a
  }

  /** derivePair works on the sixteen-byte form, so a carry out of the IPv4 part leaves the network. */
  method DerivePair(c: Cidr) returns (r: Option<(seq<byte>, seq<byte>)>)
    requires ValidCidr(c)
    ensures r.Some? <==> Contains(c, Nth(Sixteen(c.ip), 1)) && Contains(c, Nth(Sixteen(c.ip), 2))
    ensures r.Some? ==> r.value == (Nth(Sixteen(c.ip), 1), Nth(Sixteen(c.ip), 2))
  {
    var from := Sixteen(c.ip);
    var a := CopyOf(from);
    var b := CopyOf(from);
    IncIP(a);
    IncIP(b);
    assert Nth(from, 0) == from;
    assert a[..] == Nth(from, 1) && b[..] == Nth(from, 1);
    IncIP(b);
    assert b[..] == Nth(from, 2);
    if !Contains(c, a[..]) || !Contains(c, b[..]) { return None; }
    return Some((a[..], b[..]));
  }

  /** Incrementing a concatenation touches the front only when the back overflows. */
  lemma {:induction false} IncrementConcat(a: seq<byte>, b: seq<byte>)
    ensures Incremented(a + b) == if Value(b) + 1 == Range(|b|) then Incremented(a) + Incremented(b)
                                  else a + Incremented(b)
  {
    if b == [] {
      assert a + b == a;
    } else {
      var n := |b| - 1;
      assert (a + b)[..|a| + n] == a + b[..n];
      IncrementConcat(a, b[..n]);
      ValueBound(b[..n]);
    }
  }

  lemma MappedOverflow(b: seq<byte>)
    requires |b| == 4
    ensures !IsMapped(Incremented(MAPPED) + b) && !IsMapped(Incremented(Incremented(MAPPED) + b))
  {
    var m := Incremented(MAPPED);
    assert MAPPED[..11] == [0, 0, 0, 0, 0, 0, 0, 0, 0, 0, 255];
    assert MAPPED[..11][..10] == [0, 0, 0, 0, 0, 0, 0, 0, 0, 0];
    assert Incremented(MAPPED[..11]) == [0, 0, 0, 0, 0, 0, 0, 0, 0, 1] + [0];
    assert m == [0, 0, 0, 0, 0, 0, 0, 0, 0, 1] + [0] + [0];
    assert m[9] == 1 && m[11] == 0;
    assert (m + b)[11] == 0;
    IncrementConcat(m, b);
    assert Incremented(m) == m[..11] + [1];
    assert Incremented(m + b)[9] == 1;
  }

  lemma NotMappedOutside(c: Cidr, a: seq<byte>)
    requires |c.ip| == 4 && |a| == 16 && !IsMapped(a)
    ensures !Contains(c, a)
  {
  }

  lemma PairForms(c: Cidr)
    requires ValidCidr(c) && |c.ip| == 4
    ensures var a, b := Nth(Sixteen(c.ip), 1), Nth(Sixteen(c.ip), 2);
            && (if Value(c.ip) + 1 < 0x1_0000_0000 then a == MAPPED + Nth(c.ip, 1) else !IsMapped(a))
            && (if Value(c.ip) + 2 < 0x1_0000_0000 then b == MAPPED + Nth(c.ip, 2) else !IsMapped(b))
  {
    var s := Sixteen(c.ip);
    FourBytes();
    ValueBound(c.ip);
    NthValue(c.ip, 1);
    assert Nth(c.ip, 0) == c.ip && Nth(s, 0) == s;
    assert Nth(c.ip, 1) == Incremented(c.ip) && Nth(c.ip, 2) == Incremented(Nth(c.ip, 1));
    assert Nth(s, 1) == Incremented(s) && Nth(s, 2) == Incremented(Nth(s, 1));
    IncrementConcat(MAPPED, c.ip);
    MappedOverflow(Incremented(c.ip));
    if Value(c.ip) + 1 < 0x1_0000_0000 {
      IncrementConcat(MAPPED, Nth(c.ip, 1));
      MappedOverflow(Nth(c.ip, 2));
    }
  }

  /** For IPv4 the tunnel ends are the next two addresses, and exist exactly when both lie in the network. */
  lemma PairExact(c: Cidr)
    requires ValidCidr(c) && |c.ip| == 4
    ensures var a, b := Nth(Sixteen(c.ip), 1), Nth(Sixteen(c.ip), 2);
            && (Contains(c, a) && Contains(c, b) <==> Value(c.ip) + 2 < First(c) + Size(HostBits(c)))
            && (Contains(c, a) && Contains(c, b) ==>
                  Value(Canonical(a)) == Value(c.ip) + 1 && Value(Canonical(b)) == Value(c.ip) + 2)
  {
    PairForms(c);
    FourBytes();
    ValueBound(c.ip);
    ClearedAndFilled(c.ip, HostBits(c));
    ValueBound(FillHost(c.ip, HostBits(c)));
    if Value(c.ip) + 1 < 0x1_0000_0000 { PairStep(c, 1); }
    if Value(c.ip) + 2 < 0x1_0000_0000 { PairStep(c, 2); }
    var a, b := Nth(Sixteen(c.ip), 1), Nth(Sixteen(c.ip), 2);
    if !IsMapped(a) { NotMappedOutside(c, a); }
    if !IsMapped(b) { NotMappedOutside(c, b); }
  }

  lemma PairStep(c: Cidr, k: nat)
    requires ValidCidr(c) && |c.ip| == 4 && 1 <= k <= 2 && Value(c.ip) + k < 0x1_0000_0000
    ensures var x := MAPPED + Nth(c.ip, k);
            && IsMapped(x) && Value(Canonical(x)) == Value(c.ip) + k
            && (Contains(c, x) <==> Value(c.ip) + k < First(c) + Size(HostBits(c)))
  {
    FourBytes();
    NthValue(c.ip, k);
    var x, y := MAPPED + Nth(c.ip, k), Nth(c.ip, k);
    assert x[..12] == MAPPED && x[12..] == y;
    ReservedAddresses(c, y);
    ClearedAndFilled(c.ip, HostBits(c));
  }
}
