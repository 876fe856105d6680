/** sort.SliceStable and sort.Strings, specified by insertion sort, and the order on Go strings. */
module Sorting {
  import opened Lists

  ghost predicate TotalPreorder<T(!new)>(le: (T, T) -> bool) {
    && (forall x, y :: le(x, y) || le(y, x))
    && (forall x, y, z :: le(x, y) && le(y, z) ==> le(x, z))
  }

  ghost predicate Sorted<T>(xs: seq<T>, le: (T, T) -> bool) {
    forall i, j | 0 <= i < j < |xs| :: le(xs[i], xs[j])
  }

  function Insert<T>(x: T, ys: seq<T>, le: (T, T) -> bool): seq<T> {
    if ys == [] || le(x, ys[0]) then [x] + ys else [ys[0]] + Insert(x, ys[1..], le)
  }

  /** Among equal elements the one that came first stays first, as sort.SliceStable promises. */
  function StableSort<T>(xs: seq<T>, le: (T, T) -> bool): seq<T> {
    if xs == [] then [] else Insert(xs[0], StableSort(xs[1..], le), le)
  }

  lemma {:induction false} InsertMultiset<T>(x: T, ys: seq<T>, le: (T, T) -> bool)
    ensures multiset(Insert(x, ys, le)) == multiset(ys) + multiset{x}
    ensures |Insert(x, ys, le)| == |ys| + 1
  {
    if ys != [] && !le(x, ys[0]) {
      InsertMultiset(x, ys[1..], le);
      assert ys == [ys[0]] + ys[1..];
    }
  }

  lemma {:induction false} InsertionLength<T>(xs: seq<T>, le: (T, T) -> bool)
    ensures |StableSort(xs, le)| == |xs|
  {
    if xs != [] {
      InsertionLength(xs[1..], le);
      InsertMultiset(xs[0], StableSort(xs[1..], le), le);
    }
  }

  lemma {:induction false} InsertSorted<T(!new)>(x: T, ys: seq<T>, le: (T, T) -> bool)
    requires TotalPreorder(le) && Sorted(ys, le)
    ensures Sorted(Insert(x, ys, le), le)
  {
    var r := Insert(x, ys, le);
    if ys != [] && !le(x, ys[0]) {
      var tail := ys[1..];
      InsertSorted(x, tail, le);
      var rest := Insert(x, tail, le);
      InsertMultiset(x, tail, le);
      forall j | 0 <= j < |rest| ensures le(ys[0], rest[j]) {
        assert rest[j] in multiset(rest);
        if rest[j] != x {
          assert rest[j] in tail;
        }
      }
    }
  }

  /** Sorting orders the slice and neither loses nor invents an element. */
  lemma {:induction false} SortCorrect<T(!new)>(xs: seq<T>, le: (T, T) -> bool)
    requires TotalPreorder(le)
    ensures Sorted(StableSort(xs, le), le)
    ensures multiset(StableSort(xs, le)) == multiset(xs)
    ensures |StableSort(xs, le)| == |xs|
  {
    if xs != [] {
      SortCorrect(xs[1..], le);
      InsertSorted(xs[0], StableSort(xs[1..], le), le);
      InsertMultiset(xs[0], StableSort(xs[1..], le), le);
      assert xs == [xs[0]] + xs[1..];
    }
  }

  lemma {:induction false} SortUnique<T>(xs: seq<T>, le: (T, T) -> bool, key: T -> string)
    requires Unique(xs, key)
    ensures Unique(StableSort(xs, le), key)
    ensures multiset(StableSort(xs, le)) == multiset(xs)
  {
    if xs != [] {
      UniqueTail(xs, key);
      SortUnique(xs[1..], le, key);
      var s := StableSort(xs[1..], le);
      forall x | x in s ensures key(x) != key(xs[0]) {
        assert x in multiset(xs[1..]);
      }
      InsertUnique(xs[0], s, le, key);
      InsertMultiset(xs[0], s, le);
      assert xs == [xs[0]] + xs[1..];
    }
  }

  lemma {:induction false} InsertUnique<T>(x: T, ys: seq<T>, le: (T, T) -> bool, key: T -> string)
    requires Unique(ys, key) && forall y | y in ys :: key(y) != key(x)
    ensures Unique(Insert(x, ys, le), key)
  {
    if ys != [] && !le(x, ys[0]) {
      UniqueTail(ys, key);
      var tail := ys[1..];
      assert forall y | y in tail :: y in ys;
      InsertUnique(x, tail, le, key);
      var rest := Insert(x, tail, le);
      InsertMultiset(x, tail, le);
      forall j | 0 <= j < |rest| ensures key(rest[j]) != key(ys[0]) {
        assert rest[j] in multiset(rest);
        assert ys[0] in ys;
      }
    }
  }

  lemma FilterCons<T>(x: T, ys: seq<T>, p: T -> bool)
    ensures Filter([x] + ys, p) == if p(x) then [x] + Filter(ys, p) else Filter(ys, p)
  {
    assert ([x] + ys)[1..] == ys;
  }

  lemma SortedRest<T>(ys: seq<T>, le: (T, T) -> bool)
    requires Sorted(ys, le) && ys != []
    ensures Sorted(ys[1..], le)
  {
    forall i, j | 0 <= i < j < |ys[1..]| ensures le(ys[1..][i], ys[1..][j]) { assert le(ys[i + 1], ys[j + 1]); }
  }

  lemma InsertBelow<T(!new)>(x: T, ys: seq<T>, le: (T, T) -> bool, p: T -> bool)
    requires TotalPreorder(le) && Sorted(ys, le) && (ys == [] || le(x, ys[0]))
    ensures Insert(x, Filter(ys, p), le) == [x] + Filter(ys, p)
  {
    var f := Filter(ys, p);
    FilterMembers(ys, p);
    if f != [] {
      assert f[0] in f;
      var k :| 0 <= k < |ys| && ys[k] == f[0];
      assert k > 0 ==> le(ys[0], ys[k]);
    }
  }

  lemma {:induction false} FilterInsert<T(!new)>(x: T, ys: seq<T>, le: (T, T) -> bool, p: T -> bool)
    requires TotalPreorder(le) && Sorted(ys, le)
    ensures Filter(Insert(x, ys, le), p) == if p(x) then Insert(x, Filter(ys, p), le) else Filter(ys, p)
  {
    if ys == [] || le(x, ys[0]) {
      FilterCons(x, ys, p);
      InsertBelow(x, ys, le, p);
    } else {
      SortedRest(ys, le);
      FilterInsert(x, ys[1..], le, p);
      FilterCons(ys[0], Insert(x, ys[1..], le), p);
      FilterCons(ys[0], ys[1..], p);
      assert [ys[0]] + ys[1..] == ys;
      assert ([ys[0]] + Filter(ys[1..], p))[1..] == Filter(ys[1..], p);
    }
  }

  /** Dropping elements before or after a stable sort comes to the same. */
  lemma {:induction false} FilterSort<T(!new)>(xs: seq<T>, le: (T, T) -> bool, p: T -> bool)
    requires TotalPreorder(le)
    ensures Filter(StableSort(xs, le), p) == StableSort(Filter(xs, p), le)
  {
    if xs != [] {
      var tail := xs[1..];
      FilterSort(tail, le, p);
      SortCorrect(tail, le);
      FilterInsert(xs[0], StableSort(tail, le), le, p);
      assert xs == [xs[0]] + tail;
      FilterCons(xs[0], tail, p);
      assert ([xs[0]] + Filter(tail, p))[1..] == Filter(tail, p);
    }
  }

  /** The earliest among the least elements. */
  ghost predicate FirstLeast<T>(xs: seq<T>, le: (T, T) -> bool, i: nat) {
    && i < |xs|
    && (forall j | 0 <= j < i :: !le(xs[j], xs[i]))
    && (forall j | i <= j < |xs| :: le(xs[i], xs[j]))
  }

  /** A stable sort starts with the earliest least element. */
  lemma {:induction false} SortHead<T(!new)>(xs: seq<T>, le: (T, T) -> bool) returns (i: nat)
    requires TotalPreorder(le) && xs != []
    ensures FirstLeast(xs, le, i) && StableSort(xs, le) != [] && StableSort(xs, le)[0] == xs[i]
  {
    if |xs| == 1 {
      i := 0;
    } else {
      var tail := xs[1..];
      var k := SortHead(tail, le);
      if le(xs[0], tail[k]) {
        i := 0;
        forall j | 0 <= j < |xs| ensures le(xs[0], xs[j]) {
          if j > 0 {
            assert tail[j - 1] == xs[j];
            if j - 1 < k { assert !le(tail[j - 1], tail[k]); }
          }
        }
      } else {
        i := k + 1;
        forall j | 0 <= j < i ensures !le(xs[j], xs[i]) {
          if j > 0 { assert tail[j - 1] == xs[j]; }
        }
        forall j | i <= j < |xs| ensures le(xs[i], xs[j]) {
          assert tail[j - 1] == xs[j];
        }
      }
    }
  }

  lemma FirstLeastUnique<T(!new)>(xs: seq<T>, le: (T, T) -> bool, i: nat, j: nat)
    requires FirstLeast(xs, le, i) && FirstLeast(xs, le, j)
    ensures le(xs[i], xs[j]) && le(xs[j], xs[i]) && i == j
  {
  }

  // ---------- Go strings ----------

  /** Go's `<=` on strings: lexicographic by character code. */
  predicate LexLe(a: string, b: string) {
    a == [] || (b != [] && (a[0] < b[0] || (a[0] == b[0] && LexLe(a[1..], b[1..]))))
  }

  lemma {:induction false} LexTotal(a: string, b: string)
    ensures LexLe(a, b) || LexLe(b, a)
  {
    if a != [] && b != [] && a[0] == b[0] { LexTotal(a[1..], b[1..]); }
  }

  lemma {:induction false} LexTransitive(a: string, b: string, c: string)
    requires LexLe(a, b) && LexLe(b, c)
    ensures LexLe(a, c)
  {
    if a != [] && b != [] && c != [] && a[0] == b[0] == c[0] { LexTransitive(a[1..], b[1..], c[1..]); }
  }

  lemma {:induction false} LexAntisymmetric(a: string, b: string)
    requires LexLe(a, b) && LexLe(b, a)
    ensures a == b
  {
    if a != [] && b != [] {
      LexAntisymmetric(a[1..], b[1..]);
      assert a == [a[0]] + a[1..] && b == [b[0]] + b[1..];
    }
  }

  lemma LexPreorder()
    ensures TotalPreorder(LexLe)
  {
    forall x, y ensures LexLe(x, y) || LexLe(y, x) { LexTotal(x, y); }
    forall x, y, z | LexLe(x, y) && LexLe(y, z) ensures LexLe(x, z) { LexTransitive(x, y, z); }
  }
}
