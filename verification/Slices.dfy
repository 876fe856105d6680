/** The slice idioms of internal/panel on shared backing arrays. */
module Slices {
  import opened Lists

  /** A slice that starts at the beginning of its backing array; the length of the array is the capacity. */
  datatype Slice<T> = Slice(data: array<T>, len: nat)

  ghost predicate Fits<T>(s: Slice<T>) {
    s.len <= s.data.Length
  }

  ghost function Contents<T>(s: Slice<T>): seq<T>
    requires Fits(s)
    reads s.data
  {
    s.data[..s.len]
  }

  /** append([]T(nil), s...) */
  method Clone<T>(s: Slice<T>) returns (c: Slice<T>)
    requires Fits(s)
    ensures Fits(c) && fresh(c.data) && Contents(c) == Contents(s)
  {
    if s.len == 0 {
      var none := new T[0];
      c := Slice(none, 0);
    } else {
      var first := s.data[0];
      var data := new T[s.len](_ => first);
      for i := 0 to s.len
        invariant forall j | 0 <= j < i :: data[j] == s.data[j]
      {
        data[i] := s.data[i];
      }
      c := Slice(data, s.len);
      assert data[..] == s.data[..s.len];
    }
  }

  /** out := a[:0]; for _, x := range a { if keep(x) { out = append(out, x) } }, as in deleteByID, deleteUserVPNPeers,
      deleteUserInboundClients and deleteString: reader and writer share the array. */
  method FilterInPlace<T>(a: Slice<T>, keep: T -> bool) returns (out: Slice<T>)
    requires Fits(a)
    modifies a.data
    ensures out.data == a.data && out.len <= a.len && Contents(out) == Filter(old(Contents(a)), keep)
    ensures forall k | out.len <= k < a.data.Length :: a.data[k] == old(a.data[k])
  {
    ghost var was := a.data[..];
    var n := 0;
    for i := 0 to a.len
      invariant n <= i
      invariant a.data[..n] == Filter(was[..i], keep)
      invariant forall k | n <= k < a.data.Length :: a.data[k] == was[k]
    {
      var x := a.data[i];
      assert was[..i + 1] == was[..i] + [x];
      FilterConcat(was[..i], [x], keep);
      assert Filter([x], keep) == if keep(x) then [x] else [] by { assert [x][1..] == []; }
      if keep(x) {
        a.data[n] := x;
        n := n + 1;
        assert a.data[..n] == a.data[..n - 1] + [x];
      }
    }
    out := Slice(a.data, n);
    assert was[..a.len] == old(Contents(a));
  }

  function KeyIsNot<T>(key: T -> string, id: string): T -> bool {
    (x: T) => key(x) != id
  }

  lemma {:induction false} WithoutIsFilter<T>(xs: seq<T>, key: T -> string, id: string)
    ensures Filter(xs, KeyIsNot(key, id)) == Without(xs, key, id)
  {
    if xs != [] { WithoutIsFilter(xs[1..], key, id); }
  }

  method DeleteById<T>(a: Slice<T>, id: string, key: T -> string) returns (out: Slice<T>)
    requires Fits(a)
    modifies a.data
    ensures out.data == a.data && Fits(out) && Contents(out) == Without(old(Contents(a)), key, id)
  {
    WithoutIsFilter(Contents(a), key, id);
    out := FilterInPlace(a, KeyIsNot(key, id));
  }

  /** append: writes in place when there is room, else moves to a new array. */
  method Append<T>(a: Slice<T>, x: T) returns (out: Slice<T>)
    requires Fits(a)
    modifies a.data
    ensures Fits(out) && Contents(out) == old(Contents(a)) + [x]
    ensures out.data == a.data || fresh(out.data)
  {
    if a.len < a.data.Length {
      a.data[a.len] := x;
      out := Slice(a.data, a.len + 1);
      assert a.data[..a.len] == old(a.data[..a.len]);
    } else {
      var data := new T[2 * a.len + 1](_ => x);
      for i := 0 to a.len
        invariant forall j | 0 <= j < i :: data[j] == a.data[j]
        invariant data[a.len] == x && a.data[..] == old(a.data[..])
      {
        data[i] := a.data[i];
      }
      out := Slice(data, a.len + 1);
      assert data[..a.len] == a.data[..a.len];
    }
    assert Contents(out) == out.data[..a.len] + [x];
  }

  /** The re-insertion of the delete rollbacks: append a blank, shift the tail by copy, store. */
  method InsertInPlace<T>(a: Slice<T>, index: nat, blank: T, x: T) returns (out: Slice<T>)
    requires Fits(a) && index <= a.len
    modifies a.data
    ensures Fits(out) && Contents(out) == InsertAt(old(Contents(a)), index, x)
    ensures out.data == a.data || fresh(out.data)
  {
    ghost var was := Contents(a);
    out := Append(a, blank);
    ghost var grown := Contents(out);
    var i := out.len - 1;
    while i > index
      invariant index <= i < out.len
      invariant forall k | 0 <= k <= i :: out.data[k] == grown[k]
      invariant forall k | i < k < out.len :: out.data[k] == grown[k - 1]
    {
      out.data[i] := out.data[i - 1];
      i := i - 1;
    }
    out.data[index] := x;
    assert Contents(out) == InsertAt(was, index, x);
  }
}
