/** internal/panel/security.go, pbkdf2SHA256: the nested in-place loops compute PBKDF2 of section 5.2 of RFC 8018. */
module Pbkdf2 {
  type byte = bv8

  /** HMAC-SHA-256 stays abstract: any function of key and message with a fixed output length. */
  type Prf = (seq<byte>, seq<byte>) -> seq<byte>

  const HLEN: nat := 32

  ghost predicate FixedLength(prf: Prf) {
    forall k, m :: |prf(k, m)| == HLEN
  }

  /** uint32(i): the conversion wraps. */
  function Uint32(i: nat): bv32 {
    (i % 0x1_0000_0000) as bv32
  }

  /** binary.BigEndian.PutUint32 */
  function Octets(x: bv32): seq<byte> {
    [(x >> 24) as byte, ((x >> 16) & 0xFF) as byte, ((x >> 8) & 0xFF) as byte, (x & 0xFF) as byte]
  }

  /** INT(i): four octets, most significant first. */
  function Int32(i: nat): seq<byte> {
    Octets(Uint32(i))
  }

  /** Read back with the first octet most significant, the four octets give the number. */
  lemma OctetsValue(x: bv32)
    ensures var b := Octets(x);
            |b| == 4 && (((b[0] as bv32 * 256 + b[1] as bv32) * 256 + b[2] as bv32) * 256) + b[3] as bv32 == x
  {
  }

  /** U_k of block i, counted from 1. */
  function U(prf: Prf, p: seq<byte>, salt: seq<byte>, i: nat, k: nat): seq<byte> {
    if k <= 1 then prf(p, salt + Int32(i)) else prf(p, U(prf, p, salt, i, k - 1))
  }

  lemma ULength(prf: Prf, p: seq<byte>, salt: seq<byte>, i: nat, k: nat)
    requires FixedLength(prf)
    ensures |U(prf, p, salt, i, k)| == HLEN
  {
  }

  /** Octet j of U_1 xor ... xor U_c. */
  function XorOctet(prf: Prf, p: seq<byte>, salt: seq<byte>, i: nat, c: nat, j: nat): byte
    requires FixedLength(prf) && j < HLEN
  {
    ULength(prf, p, salt, i, c);
    if c <= 1 then U(prf, p, salt, i, 1)[j]
    else XorOctet(prf, p, salt, i, c - 1, j) ^ U(prf, p, salt, i, c)[j]
  }

  /** T_i */
  ghost function T(prf: Prf, p: seq<byte>, salt: seq<byte>, c: nat, i: nat): (t: seq<byte>)
    requires FixedLength(prf)
    ensures |t| == HLEN
  {
    seq(HLEN, j requires 0 <= j < HLEN => XorOctet(prf, p, salt, i, c, j))
  }

  /** T_1 || ... || T_n */
  ghost function Blocks(prf: Prf, p: seq<byte>, salt: seq<byte>, c: nat, n: nat): (r: seq<byte>)
    requires FixedLength(prf)
    ensures |r| == n * HLEN
  {
    if n == 0 then [] else Blocks(prf, p, salt, c, n - 1) + T(prf, p, salt, c, n)
  }

  /** The derived key: the first length octets. */
  ghost function Key(prf: Prf, p: seq<byte>, salt: seq<byte>, c: nat, length: nat): (r: seq<byte>)
    requires FixedLength(prf)
    ensures |r| == length
  {
    Blocks(prf, p, salt, c, (length + HLEN - 1) / HLEN)[..length]
  }

  /** Octet m of the key is octet m mod 32 of U_1 xor ... xor U_c of block m / 32 + 1, whatever the key length. */
  lemma {:induction false} KeyOctet(prf: Prf, p: seq<byte>, salt: seq<byte>, c: nat, length: nat, m: nat)
    requires FixedLength(prf) && m < length
    ensures Key(prf, p, salt, c, length)[m] == XorOctet(prf, p, salt, m / HLEN + 1, c, m % HLEN)
  {
    BlockOctet(prf, p, salt, c, (length + HLEN - 1) / HLEN, m);
  }

  lemma {:induction false} BlockOctet(prf: Prf, p: seq<byte>, salt: seq<byte>, c: nat, n: nat, m: nat)
    requires FixedLength(prf) && m < n * HLEN
    ensures Blocks(prf, p, salt, c, n)[m] == XorOctet(prf, p, salt, m / HLEN + 1, c, m % HLEN)
  {
    if m < (n - 1) * HLEN { BlockOctet(prf, p, salt, c, n - 1, m); }
  }

  /** A longer key extends a shorter one. */
  lemma KeyPrefix(prf: Prf, p: seq<byte>, salt: seq<byte>, c: nat, a: nat, b: nat)
    requires FixedLength(prf) && a <= b
    ensures Key(prf, p, salt, c, a) == Key(prf, p, salt, c, b)[..a]
  {
    forall m: nat | m < a ensures Key(prf, p, salt, c, a)[m] == Key(prf, p, salt, c, b)[m] {
      KeyOctet(prf, p, salt, c, a, m);
      KeyOctet(prf, p, salt, c, b, m);
    }
  }

  /** for j := range t { t[j] ^= u[j] } */
  method XorInto(t: array<byte>, u: seq<byte>)
    requires t.Length == |u|
    modifies t
    ensures forall j | 0 <= j < t.Length :: t[j] == old(t[j]) ^ u[j]
  {
    for j := 0 to t.Length
      invariant forall k | 0 <= k < j :: t[k] == old(t[k]) ^ u[k]
      invariant forall k | j <= k < t.Length :: t[k] == old(t[k])
    {
      t[j] := t[j] ^ u[j];
    }
  }

  /** One pass of the outer loop. */
  method Block(prf: Prf, p: seq<byte>, salt: seq<byte>, iterations: nat, block: nat) returns (out: seq<byte>)
    requires FixedLength(prf)
    ensures out == T(prf, p, salt, iterations, block)
  {
    var u := prf(p, salt + Int32(block));
    var t := new byte[|u|];
    forall j | 0 <= j < |u| { t[j] := u[j]; }
    var i := 1;
    while i < iterations
      invariant 1 <= i && (i <= iterations || i == 1)
      invariant u == U(prf, p, salt, block, i) && t.Length == HLEN
      invariant forall j | 0 <= j < HLEN :: t[j] == XorOctet(prf, p, salt, block, i, j)
    {
      u := prf(p, u);
      XorInto(t, u);
      i := i + 1;
    }
    FewIterations(prf, p, salt, block, iterations, i);
    return t[..];
  }

  /** Zero iterations count as one. */
  lemma FewIterations(prf: Prf, p: seq<byte>, salt: seq<byte>, block: nat, iterations: nat, i: nat)
    requires FixedLength(prf) && (i == iterations || (i == 1 && iterations <= 1))
    ensures forall j | 0 <= j < HLEN ::
              XorOctet(prf, p, salt, block, i, j) == XorOctet(prf, p, salt, block, iterations, j)
  {
  }

  /** Main result: pbkdf2SHA256 returns the derived key of the standard, for every length and iteration count. */
  method Derive(prf: Prf, p: seq<byte>, salt: seq<byte>, iterations: nat, keyLen: nat) returns (key: seq<byte>)
    requires FixedLength(prf)
    ensures key == Key(prf, p, salt, iterations, keyLen)
  {
    var blocks := (keyLen + HLEN - 1) / HLEN;
    var out: seq<byte> := [];
    for block := 1 to blocks + 1
      invariant out == Blocks(prf, p, salt, iterations, block - 1)
    {
      var t := Block(prf, p, salt, iterations, block);
      out := out + t;
    }
    return out[..keyLen];
  }
}
