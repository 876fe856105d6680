/** Slices of records with an identifier, as the panel's store searches, filters and edits them. */
module Lists {
  import opened Wrappers

  // ---------- lookup by identifier ----------

  /** Position of the first element with the given identifier, or the length of the slice. */
  function IndexOf<T>(xs: seq<T>, key: T -> string, id: string): (i: nat)
    ensures i <= |xs|
    ensures i < |xs| ==> key(xs[i]) == id
    ensures forall j | 0 <= j < i :: key(xs[j]) != id
  {
    if xs == [] || key(xs[0]) == id then 0 else 1 + IndexOf(xs[1..], key, id)
  }

  /** The first element with the given identifier. */
  function Find<T>(xs: seq<T>, key: T -> string, id: string): (r: Option<T>)
    ensures r.Some? ==> r.value in xs && key(r.value) == id
    ensures r.None? ==> forall x | x in xs :: key(x) != id
  {
    var i := IndexOf(xs, key, id);
    if i < |xs| then Some(xs[i]) else None
  }

  function Ids<T>(xs: seq<T>, key: T -> string): set<string> {
    set i | 0 <= i < |xs| :: key(xs[i])
  }

  lemma IdsFind<T>(xs: seq<T>, key: T -> string, id: string)
    ensures id in Ids(xs, key) <==> Find(xs, key, id).Some?
  {
    if id in Ids(xs, key) {
      var i :| 0 <= i < |xs| && key(xs[i]) == id;
      assert xs[i] in xs;
    }
    if Find(xs, key, id).Some? {
      var i := IndexOf(xs, key, id);
      assert key(xs[i]) in Ids(xs, key);
    }
  }

  /** Lookup positions depend on the identifiers alone. */
  lemma {:induction false} SameKeys<T>(xs: seq<T>, ys: seq<T>, key: T -> string, id: string)
    requires |xs| == |ys| && forall i | 0 <= i < |xs| :: key(xs[i]) == key(ys[i])
    ensures IndexOf(xs, key, id) == IndexOf(ys, key, id)
  {
    if xs != [] { SameKeys(xs[1..], ys[1..], key, id); }
  }

  ghost predicate Unique<T>(xs: seq<T>, key: T -> string) {
    forall i, j | 0 <= i < j < |xs| :: key(xs[i]) != key(xs[j])
  }

  lemma UniqueAt<T>(xs: seq<T>, key: T -> string, i: nat)
    requires Unique(xs, key) && i < |xs|
    ensures IndexOf(xs, key, key(xs[i])) == i
    ensures Find(xs, key, key(xs[i])) == Some(xs[i])
  {
  }

  lemma UniqueIn<T>(xs: seq<T>, key: T -> string, x: T)
    requires Unique(xs, key) && x in xs
    ensures Find(xs, key, key(x)) == Some(x)
  {
    var i :| 0 <= i < |xs| && xs[i] == x;
    UniqueAt(xs, key, i);
  }

  lemma {:induction false} IndexOfAppend<T>(xs: seq<T>, key: T -> string, y: T, id: string)
    ensures var i := IndexOf(xs, key, id);
            IndexOf(xs + [y], key, id) == if i < |xs| || key(y) == id then i else |xs| + 1
  {
    if xs != [] {
      assert (xs + [y])[1..] == xs[1..] + [y];
      IndexOfAppend(xs[1..], key, y, id);
    }
  }

  /** What looking up any identifier returns after an append. */
  lemma FindAppend<T>(xs: seq<T>, key: T -> string, y: T)
    ensures forall id :: Find(xs + [y], key, id) ==
                         if Find(xs, key, id).Some? then Find(xs, key, id)
                         else if key(y) == id then Some(y) else None
    ensures Unique(xs, key) && Find(xs, key, key(y)).None? ==> Unique(xs + [y], key)
  {
    forall id
      ensures Find(xs + [y], key, id) ==
              if Find(xs, key, id).Some? then Find(xs, key, id)
              else if key(y) == id then Some(y) else None
    {
      IndexOfAppend(xs, key, y, id);
    }
    if Unique(xs, key) && Find(xs, key, key(y)).None? {
      forall i, j | 0 <= i < j < |xs + [y]| ensures key((xs + [y])[i]) != key((xs + [y])[j]) {
        assert xs[i] in xs;
      }
    }
  }

  /** Overwriting the first element that carries an identifier, as `*x = y` does through a pointer. */
  function Replace<T>(xs: seq<T>, key: T -> string, id: string, y: T): (r: seq<T>)
    ensures |r| == |xs|
  {
    var i := IndexOf(xs, key, id);
    if i < |xs| then xs[i := y] else xs
  }

  lemma FindReplace<T>(xs: seq<T>, key: T -> string, id: string, y: T)
    requires key(y) == id && Find(xs, key, id).Some?
    ensures forall j :: Find(Replace(xs, key, id, y), key, j) == if j == id then Some(y) else Find(xs, key, j)
    ensures Unique(xs, key) ==> Unique(Replace(xs, key, id, y), key)
  {
    var r, p := Replace(xs, key, id, y), IndexOf(xs, key, id);
    forall j
      ensures Find(r, key, j) == if j == id then Some(y) else Find(xs, key, j)
    {
      var k, i := IndexOf(r, key, j), IndexOf(xs, key, j);
      assert forall m | 0 <= m < |xs| :: key(r[m]) == key(xs[m]);
      assert k == i;
    }
  }

  // ---------- deletion and insertion ----------

  /** deleteByID: drops every element that carries the identifier, keeping the order of the rest. */
  function Without<T>(xs: seq<T>, key: T -> string, id: string): (r: seq<T>)
    ensures |r| <= |xs|
  {
    if xs == [] then []
    else
      var rest := Without(xs[1..], key, id);
      if key(xs[0]) == id then rest else [xs[0]] + rest
  }

  lemma {:induction false} WithoutMembers<T>(xs: seq<T>, key: T -> string, id: string)
    ensures forall x | x in Without(xs, key, id) :: x in xs && key(x) != id
    ensures forall x | x in xs && key(x) != id :: x in Without(xs, key, id)
  {
    if xs != [] {
      WithoutMembers(xs[1..], key, id);
      assert forall x | x in xs[1..] :: x in xs;
      assert forall x | x in xs :: x == xs[0] || x in xs[1..];
    }
  }

  lemma {:induction false} WithoutAbsent<T>(xs: seq<T>, key: T -> string, id: string)
    requires forall j | 0 <= j < |xs| :: key(xs[j]) != id
    ensures Without(xs, key, id) == xs
  {
    if xs != [] { WithoutAbsent(xs[1..], key, id); }
  }

  lemma UniqueTail<T>(xs: seq<T>, key: T -> string)
    requires Unique(xs, key) && xs != []
    ensures Unique(xs[1..], key)
    ensures Find(xs[1..], key, key(xs[0])).None?
  {
    forall x | x in xs[1..] ensures key(x) != key(xs[0]) {
      var j :| 0 <= j < |xs[1..]| && xs[1..][j] == x;
      assert xs[j + 1] == x;
    }
  }

  /** With unique identifiers deletion removes exactly one position. */
  lemma {:induction false} WithoutUnique<T>(xs: seq<T>, key: T -> string, i: nat)
    requires Unique(xs, key) && i < |xs|
    ensures Without(xs, key, key(xs[i])) == xs[..i] + xs[i+1..]
  {
    var tail := xs[1..];
    if i == 0 {
      WithoutAbsent(tail, key, key(xs[0]));
      assert xs[..0] + xs[1..] == tail;
    } else {
      WithoutUnique(tail, key, i - 1);
      assert xs[..i] + xs[i+1..] == [xs[0]] + (tail[..i - 1] + tail[i..]);
    }
  }

  lemma {:induction false} UniqueWithout<T>(xs: seq<T>, key: T -> string, id: string)
    requires Unique(xs, key)
    ensures Unique(Without(xs, key, id), key)
  {
    if xs != [] {
      UniqueTail(xs, key);
      UniqueWithout(xs[1..], key, id);
      WithoutMembers(xs[1..], key, id);
      var rest := Without(xs[1..], key, id);
      forall j | 0 <= j < |rest| ensures key(rest[j]) != key(xs[0]) {
        assert rest[j] in rest;
      }
    }
  }

  lemma FindWithout<T>(xs: seq<T>, key: T -> string, id: string)
    requires Unique(xs, key)
    ensures forall j :: Find(Without(xs, key, id), key, j) == if j == id then None else Find(xs, key, j)
    ensures Unique(Without(xs, key, id), key)
  {
    var r := Without(xs, key, id);
    UniqueWithout(xs, key, id);
    WithoutMembers(xs, key, id);
    forall j ensures Find(r, key, j) == if j == id then None else Find(xs, key, j) {
      var f, g := Find(r, key, j), Find(xs, key, j);
      if f.Some? {
        UniqueIn(xs, key, f.value);
      } else if g.Some? {
        assert g.value !in r;
      }
    }
  }

  /** append + copy + store: the rollback of a delete puts the record back at its old position. */
  function InsertAt<T>(xs: seq<T>, i: nat, y: T): (r: seq<T>)
    requires i <= |xs|
    ensures |r| == |xs| + 1
    ensures r[i] == y
    ensures forall j | 0 <= j < i :: r[j] == xs[j]
    ensures forall j | i < j <= |xs| :: r[j] == xs[j - 1]
  {
    xs[..i] + [y] + xs[i..]
  }

  predicate Pointwise<T>(xs: seq<T>, ys: seq<T>, rel: (T, T) -> bool) {
    |ys| == |xs| && forall i | 0 <= i < |xs| :: rel(xs[i], ys[i])
  }

  // ---------- filtering ----------

  /** The subsequence of elements that satisfy `p`: a loop whose body starts with `if !p(x) { continue }`. */
  function Filter<T>(xs: seq<T>, p: T -> bool): seq<T> {
    if xs == [] then [] else (if p(xs[0]) then [xs[0]] else []) + Filter(xs[1..], p)
  }

  lemma {:induction false} FilterMembers<T>(xs: seq<T>, p: T -> bool)
    ensures forall x | x in Filter(xs, p) :: x in xs && p(x)
    ensures forall x | x in xs && p(x) :: x in Filter(xs, p)
  {
    if xs != [] {
      FilterMembers(xs[1..], p);
      assert forall x | x in xs[1..] :: x in xs;
      assert forall x | x in xs :: x == xs[0] || x in xs[1..];
    }
  }

  lemma {:induction false} FilterConcat<T>(a: seq<T>, b: seq<T>, p: T -> bool)
    ensures Filter(a + b, p) == Filter(a, p) + Filter(b, p)
  {
    if a == [] {
      assert a + b == b;
    } else {
      var head := if p(a[0]) then [a[0]] else [];
      FilterConcat(a[1..], b, p);
      assert (a + b)[1..] == a[1..] + b && (a + b)[0] == a[0];
      assert head + (Filter(a[1..], p) + Filter(b, p)) == head + Filter(a[1..], p) + Filter(b, p);
    }
  }

  lemma FilterUpdate<T>(xs: seq<T>, i: nat, y: T, p: T -> bool)
    requires i < |xs| && !p(xs[i]) && !p(y)
    ensures Filter(xs[i := y], p) == Filter(xs, p)
  {
    assert xs == xs[..i] + ([xs[i]] + xs[i+1..]);
    assert xs[i := y] == xs[..i] + ([y] + xs[i+1..]);
    FilterConcat(xs[..i], [xs[i]] + xs[i+1..], p);
    FilterConcat(xs[..i], [y] + xs[i+1..], p);
  }

  lemma FilterReplace<T>(xs: seq<T>, key: T -> string, id: string, y: T, p: T -> bool)
    requires Find(xs, key, id).Some? ==> !p(Find(xs, key, id).value) && !p(y)
    ensures Filter(Replace(xs, key, id, y), p) == Filter(xs, p)
  {
    var i := IndexOf(xs, key, id);
    if i < |xs| {
      FilterUpdate(xs, i, y, p);
    }
  }

  lemma {:induction false} FilterWithout<T>(xs: seq<T>, key: T -> string, id: string, p: T -> bool)
    requires forall x | x in xs && key(x) == id :: !p(x)
    ensures Filter(Without(xs, key, id), p) == Filter(xs, p)
  {
    if xs != [] {
      assert xs[0] in xs;
      assert forall x | x in xs[1..] :: x in xs;
      FilterWithout(xs[1..], key, id, p);
    }
  }

  lemma {:induction false} FilterAgree<T>(xs: seq<T>, p: T -> bool, q: T -> bool)
    requires forall x | x in xs :: p(x) == q(x)
    ensures Filter(xs, p) == Filter(xs, q)
  {
    if xs != [] {
      assert xs[0] in xs;
      assert forall x | x in xs[1..] :: x in xs;
      FilterAgree(xs[1..], p, q);
    }
  }

  // ---------- what one edit by identifier does ----------

  /** The record with the identifier becomes `y`. */
  ghost function Overwritten<T(!new)>(xs: seq<T>, key: T -> string, id: string, y: T): (r: seq<T>)
    ensures |r| == |xs| && forall i | 0 <= i < |xs| :: r[i] == if key(xs[i]) == id then y else xs[i]
  {
    seq(|xs|, i requires 0 <= i < |xs| => if key(xs[i]) == id then y else xs[i])
  }

  lemma ReplaceOverwrites<T(!new)>(xs: seq<T>, key: T -> string, id: string, y: T)
    requires Unique(xs, key) && Find(xs, key, id).Some?
    ensures Replace(xs, key, id, y) == Overwritten(xs, key, id, y)
  {
    var p := IndexOf(xs, key, id);
    forall i | 0 <= i < |xs| ensures Replace(xs, key, id, y)[i] == Overwritten(xs, key, id, y)[i] {
      if key(xs[i]) == id { UniqueAt(xs, key, i); }
    }
  }

  function Other<T>(key: T -> string, id: string): T -> bool {
    (x: T) => key(x) != id
  }

  lemma {:induction false} WithoutFilters<T(!new)>(xs: seq<T>, key: T -> string, id: string)
    ensures Without(xs, key, id) == Filter(xs, Other(key, id))
  {
    if xs != [] { WithoutFilters(xs[1..], key, id); }
  }

  lemma {:induction false} SameFilter<T(!new)>(xs: seq<T>, p: T -> bool, q: T -> bool)
    requires forall x :: p(x) == q(x)
    ensures Filter(xs, p) == Filter(xs, q)
  {
    if xs != [] { SameFilter(xs[1..], p, q); }
  }
}
