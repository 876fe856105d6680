/** Byte strings as big-endian numbers. */
module Bytes {
  type byte = x: int | 0 <= x < 256

  /** Big-endian number. */
  function Value(s: seq<byte>): nat {
    if s == [] then 0 else 256 * Value(s[..|s| - 1]) + s[|s| - 1]
  }

  /** How many addresses of n bytes there are. */
  function Range(n: nat): (r: nat)
    ensures r > 0
  {
    if n == 0 then 1 else 256 * Range(n - 1)
  }

  lemma {:induction false} ValueBound(s: seq<byte>)
    ensures Value(s) < Range(|s|)
  {
    if s != [] { ValueBound(s[..|s| - 1]); }
  }

  lemma {:induction false} ValueInjective(a: seq<byte>, b: seq<byte>)
    requires |a| == |b| && Value(a) == Value(b)
    ensures a == b
  {
    if a != [] {
      ValueInjective(a[..|a| - 1], b[..|b| - 1]);
      assert a == a[..|a| - 1] + [a[|a| - 1]] && b == b[..|b| - 1] + [b[|b| - 1]];
    }
  }

  /** The last k base-256 digits of a number, most significant first. */
  function BigEndian(n: nat, k: nat): (r: seq<byte>)
    ensures |r| == k
  {
    if k == 0 then [] else BigEndian(n / 256, k - 1) + [n % 256]
  }

  lemma {:induction false} BigEndianValue(n: nat, k: nat)
    requires n < Range(k)
    ensures Value(BigEndian(n, k)) == n
  {
    if k > 0 { BigEndianValue(n / 256, k - 1); }
  }

  lemma ValueBigEndian(s: seq<byte>)
    ensures BigEndian(Value(s), |s|) == s
  {
    ValueBound(s);
    BigEndianValue(Value(s), |s|);
    ValueInjective(BigEndian(Value(s), |s|), s);
  }
}
