/** internal/transports/pulseudp/pulseudp.go: round-trip estimate, path ranking and duplicate suppression. */
module PulseUdp {
  import opened Wrappers
  import opened Sorting

  /** Nanoseconds. Clock readings count from Go's zero time, so 0 is "never". */
  type Nanos = int

  const SECOND: Nanos := 1_000_000_000

  // ---------- round-trip estimate ----------

  datatype Estimate = Estimate(rtt: Nanos, jitter: Nanos)

  /** One sample: a quarter of the way towards it, rounded down. An estimate of 0 means that there is none. */
  function Track(e: Estimate, v: Nanos): Estimate {
    if e.rtt == 0 then Estimate(v, 0)
    else Estimate((3 * e.rtt + v) / 4, (3 * e.jitter + (if e.rtt < v then v - e.rtt else e.rtt - v)) / 4)
  }

  function TrackAll(samples: seq<Nanos>): Estimate {
    if samples == [] then Estimate(0, 0)
    else Track(TrackAll(samples[..|samples| - 1]), samples[|samples| - 1])
  }

  /** Truncating a real conversion of the kind time.Duration(float64(a)*0.75 + float64(b)*0.25); below 2^50 the
      floating point arithmetic is exact. */
  lemma QuarterStep(a: Nanos, b: Nanos)
    requires 0 <= a && 0 <= b
    ensures (a as real * 0.75 + b as real * 0.25).Floor == (3 * a + b) / 4
  {
    var x, q := a as real * 0.75 + b as real * 0.25, (3 * a + b) / 4;
    assert x == (3 * a + b) as real / 4.0;
    assert 4 * q <= 3 * a + b < 4 * q + 4;
    assert (4 * q) as real <= (3 * a + b) as real < (4 * q + 4) as real;
    assert q as real <= x < q as real + 1.0;
  }

  /** Once sampled, the estimate stays between the least and the greatest sample, never falls back to "none", and the
      jitter is at most their difference. */
  lemma {:induction false} EstimateBounded(samples: seq<Nanos>, lo: Nanos, hi: Nanos)
    requires samples != [] && 0 < lo && forall i | 0 <= i < |samples| :: lo <= samples[i] <= hi
    ensures lo <= TrackAll(samples).rtt <= hi && 0 <= TrackAll(samples).jitter <= hi - lo
  {
    var init := samples[..|samples| - 1];
    if init != [] {
      forall i | 0 <= i < |init| ensures lo <= init[i] <= hi { assert init[i] == samples[i]; }
      EstimateBounded(init, lo, hi);
    } else {
      assert TrackAll(init) == Estimate(0, 0);
    }
  }

  function Distance(a: Nanos, b: Nanos): nat { if a < b then b - a else a - b }

  /** The estimates that a sample leaves alone, and progress towards it from everywhere else. */
  lemma StepTowards(e: Estimate, v: Nanos)
    requires e.rtt > 0 && v > 0
    ensures Track(e, v).rtt == e.rtt <==> v - 3 <= e.rtt <= v
    ensures Track(e, v).rtt != e.rtt ==> Distance(Track(e, v).rtt, v) < Distance(e.rtt, v)
    ensures 4 * Distance(Track(e, v).rtt, v) <= 3 * Distance(e.rtt, v) + 3
    ensures Track(e, v).rtt > 0
  {
  }

  function Repeat(e: Estimate, v: Nanos, n: nat): Estimate
    decreases n
  {
    if n == 0 then e else Repeat(Track(e, v), v, n - 1)
  }

  /** Repeating a sample drives the estimate into [v - 3 ns, v] within as many steps as it is nanoseconds away, and
      keeps it there. */
  lemma {:induction false} RepeatConverges(e: Estimate, v: Nanos, n: nat)
    requires e.rtt > 0 && v > 0 && (v - 3 <= e.rtt <= v || n >= Distance(e.rtt, v))
    ensures v - 3 <= Repeat(e, v, n).rtt <= v
    decreases n
  {
    StepTowards(e, v);
    if n > 0 { RepeatConverges(Track(e, v), v, n - 1); }
  }

  // ---------- paths ----------

  /** A score is None when the path is not usable. */
  function ScoreOf(healthy: bool, lastSeen: Nanos, e: Estimate, now: Nanos, timeout: Nanos): Option<real> {
    if !healthy then None
    else if lastSeen != 0 && now - lastSeen > timeout then None
    else
      var r := if e.rtt == 0 then 999_000_000 else e.rtt;
      Some(r as real + 2.5 * e.jitter as real)
  }

  /** Two nanoseconds of jitter weigh as much as five of round trip, and a path without a sample counts as one of
      999 ms: twice the score is an integer. */
  lemma ScoreExact(e: Estimate, lastSeen: Nanos, now: Nanos, timeout: Nanos)
    requires lastSeen == 0 || now <= lastSeen + timeout
    ensures var s := ScoreOf(true, lastSeen, e, now, timeout);
            s.Some? && s.value + s.value == (2 * (if e.rtt == 0 then 999_000_000 else e.rtt) + 5 * e.jitter) as real
  {
    assert 2.5 * e.jitter as real + 2.5 * e.jitter as real == 5.0 * e.jitter as real == (5 * e.jitter) as real;
  }

  class Path {
    const id: nat
    const port: nat
    var rtt: Nanos
    var jitter: Nanos
    var lastSeen: Nanos
    var healthy: bool

    ghost predicate Valid()
      reads this
    {
      0 <= rtt && 0 <= jitter
    }

    function Estimated(): Estimate
      reads this
    {
      Estimate(rtt, jitter)
    }

    function Score(now: Nanos, timeout: Nanos): Option<real>
      reads this
    {
      ScoreOf(healthy, lastSeen, Estimated(), now, timeout)
    }

    constructor (id: nat, port: nat, healthy: bool, lastSeen: Nanos)
      ensures Valid() && this.id == id && this.port == port
      ensures Estimated() == TrackAll([]) && this.healthy == healthy && this.lastSeen == lastSeen
    {
      this.id, this.port, this.healthy, this.lastSeen := id, port, healthy, lastSeen;
      rtt, jitter := 0, 0;
    }

    method MarkSeen(now: Nanos)
      requires Valid()
      modifies this
      ensures Valid() && Estimated() == old(Estimated())
      ensures lastSeen == now && healthy
    {
      lastSeen, healthy := now, true;
    }

    method UpdateRTT(v: Nanos, now: Nanos)
      requires Valid() && 0 < v < 30 * SECOND
      modifies this
      ensures Valid() && Estimated() == Track(old(Estimated()), v)
      ensures lastSeen == now && healthy
    {
      var before := rtt;
      if before == 0 {
        rtt, jitter := v, 0;
      } else {
        var delta := before - v;
        if delta < 0 { delta := -delta; }
        QuarterStep(jitter, delta);
        QuarterStep(before, v);
        jitter := (jitter as real * 0.75 + delta as real * 0.25).Floor;
        rtt := (before as real * 0.75 + v as real * 0.25).Floor;
      }
      lastSeen, healthy := now, true;
    }

    function View(): Link
      reads this
    {
      Link(healthy, lastSeen, Estimated())
    }

    /** The part of the receive loop that touches the path. */
    method Receive(h: Heard)
      requires Valid()
      modifies this
      ensures Valid() && View() == Hear(old(View()), h)
    {
      MarkSeen(h.seen);
      if h.sample.Some? && h.sample.value > 0 && h.sample.value < 30 * SECOND {
        UpdateRTT(h.sample.value, h.sampled);
      }
    }

    method Listen(hs: seq<Heard>)
      requires Valid()
      modifies this
      ensures Valid() && View() == HearAll(old(View()), hs)
    {
      ghost var was := View();
      for k := 0 to |hs|
        invariant Valid() && View() == HearAll(was, hs[..k])
      {
        assert hs[..k + 1][..k] == hs[..k];
        Receive(hs[k]);
      }
      assert hs[..|hs|] == hs;
    }
  }

  // ---------- what a path hears ----------

  /** One frame that opened: when it was noted, the round trip it carries if it is a pong of eight bytes, and when the
      sample was noted. */
  datatype Heard = Heard(seen: Nanos, sample: Option<Nanos>, sampled: Nanos)

  predicate Counts(h: Heard) {
    h.sample.Some? && 0 < h.sample.value < 30 * SECOND
  }

  function LastNoted(h: Heard): Nanos {
    if Counts(h) then h.sampled else h.seen
  }

  /** The fields of a path. */
  datatype Link = Link(healthy: bool, lastSeen: Nanos, e: Estimate)

  function Hear(l: Link, h: Heard): Link {
    Link(true, LastNoted(h), if Counts(h) then Track(l.e, h.sample.value) else l.e)
  }

  function HearAll(l: Link, hs: seq<Heard>): Link {
    if hs == [] then l else Hear(HearAll(l, hs[..|hs| - 1]), hs[|hs| - 1])
  }

  /** The samples that count, in order. */
  function Samples(hs: seq<Heard>): seq<Nanos> {
    if hs == [] then []
    else
      var rest, h := Samples(hs[..|hs| - 1]), hs[|hs| - 1];
      if Counts(h) then rest + [h.sample.value] else rest
  }

  lemma {:induction false} HeardEstimate(l: Link, hs: seq<Heard>)
    requires l.e == TrackAll([])
    ensures HearAll(l, hs).e == TrackAll(Samples(hs))
  {
    if hs != [] {
      var init, h := hs[..|hs| - 1], hs[|hs| - 1];
      HeardEstimate(l, init);
      var vs := Samples(init);
      if Counts(h) { assert (vs + [h.sample.value])[..|vs|] == vs; }
    }
  }

  /** After any frames a path is usable exactly as long as the last of them lies within the timeout, whatever state the
      path started in; before the first frame its initial marks decide. */
  lemma UsableExactly(l: Link, hs: seq<Heard>, now: Nanos, timeout: Nanos)
    requires forall h | h in hs :: h.seen > 0 && h.sampled > 0
    ensures var m := HearAll(l, hs);
            ScoreOf(m.healthy, m.lastSeen, m.e, now, timeout).Some? <==>
            if hs == [] then l.healthy && (l.lastSeen == 0 || now <= l.lastSeen + timeout)
            else now <= LastNoted(hs[|hs| - 1]) + timeout
  {
    if hs != [] { assert hs[|hs| - 1] in hs; }
  }

  /** The score of a path that heard samples lies between the bounds of the samples. */
  lemma ScoreBounded(l: Link, hs: seq<Heard>, lo: Nanos, hi: Nanos, now: Nanos, timeout: Nanos)
    requires l.e == TrackAll([]) && Samples(hs) != [] && 0 < lo
    requires forall i | 0 <= i < |Samples(hs)| :: lo <= Samples(hs)[i] <= hi
    ensures var m := HearAll(l, hs);
            var score := ScoreOf(m.healthy, m.lastSeen, m.e, now, timeout);
            score.Some? ==> lo as real <= score.value <= hi as real + 2.5 * (hi - lo) as real
  {
    HeardEstimate(l, hs);
    EstimateBounded(Samples(hs), lo, hi);
  }

  // ---------- ranking ----------

  datatype Item = Item(index: nat, score: real)

  predicate ByScore(a: Item, b: Item) { a.score <= b.score }

  ghost predicate NoneUsable(scores: seq<Option<real>>) {
    forall k | 0 <= k < |scores| :: scores[k].None?
  }

  /** Positions, each once: those with a score, the lower scores first, or all of them when none has a score. Ties may
      come in any order. */
  ghost predicate IsRanking(scores: seq<Option<real>>, order: seq<nat>) {
    && (forall k: nat :: k in order <==> k < |scores| && (scores[k].Some? || NoneUsable(scores)))
    && (forall i, j | 0 <= i < j < |order| :: order[i] != order[j])
    && (!NoneUsable(scores) ==> forall i, j | 0 <= i < j < |order| ::
          order[i] < |scores| && order[j] < |scores| && scores[order[i]].Some? && scores[order[j]].Some? &&
          scores[order[i]].value <= scores[order[j]].value)
  }

  function Scores(paths: seq<Path>, now: Nanos, timeout: Nanos): (r: seq<Option<real>>)
    reads paths
    ensures |r| == |paths| && forall k | 0 <= k < |paths| :: r[k] == paths[k].Score(now, timeout)
  {
    if paths == [] then [] else [paths[0].Score(now, timeout)] + Scores(paths[1..], now, timeout)
  }

  lemma MultiplicityTwo(ys: seq<Item>, i: nat, j: nat)
    requires i < j < |ys| && ys[i] == ys[j]
    ensures multiset(ys)[ys[i]] >= 2
  {
    var x := ys[i];
    assert ys == ys[..i] + [x] + ys[i + 1..j] + [x] + ys[j + 1..];
  }

  lemma MultiplicityOne(xs: seq<Item>, x: Item)
    requires forall i, j | 0 <= i < j < |xs| :: xs[i].index < xs[j].index
    ensures multiset(xs)[x] <= 1
  {
    if x in xs {
      var k :| 0 <= k < |xs| && xs[k] == x;
      assert xs == xs[..k] + [x] + xs[k + 1..];
      assert x !in xs[..k] && x !in xs[k + 1..];
    }
  }

  lemma DistinctThroughSort(xs: seq<Item>, ys: seq<Item>, i: nat, j: nat)
    requires multiset(xs) == multiset(ys) && forall i, j | 0 <= i < j < |xs| :: xs[i].index < xs[j].index
    requires i < j < |ys|
    ensures ys[i].index != ys[j].index
  {
    MultiplicityOne(xs, ys[i]);
    if ys[i] == ys[j] { MultiplicityTwo(ys, i, j); }
    assert ys[i] in multiset(xs) && ys[j] in multiset(xs);
  }

  ghost predicate HasItem(x: seq<Item>, k: int) {
    exists it :: it in x && it.index == k
  }

  /** The positions that ranked collects, in the order of the slice. */
  ghost predicate Collected(scores: seq<Option<real>>, x: seq<Item>) {
    && (forall it | it in x :: it.index < |scores| && (NoneUsable(scores) || scores[it.index] == Some(it.score)))
    && (forall k | 0 <= k < |scores| && (scores[k].Some? || NoneUsable(scores)) :: HasItem(x, k))
    && (forall i, j | 0 <= i < j < |x| :: x[i].index < x[j].index)
  }

  lemma SortedItems(scores: seq<Option<real>>, x: seq<Item>)
    requires Collected(scores, x)
    ensures var y := StableSort(x, ByScore);
            && Sorted(y, ByScore)
            && (forall it :: it in y <==> it in x)
            && (forall i, j | 0 <= i < j < |y| :: y[i].index != y[j].index)
  {
    var y := StableSort(x, ByScore);
    SortCorrect(x, ByScore);
    forall i, j | 0 <= i < j < |y| ensures y[i].index != y[j].index { DistinctThroughSort(x, y, i, j); }
    forall it ensures it in y <==> it in x { assert it in multiset(y) <==> it in multiset(x); }
  }

  lemma SortRanks(scores: seq<Option<real>>, x: seq<Item>, y: seq<Item>, order: seq<nat>)
    requires Collected(scores, x) && Sorted(y, ByScore)
    requires forall it :: it in y <==> it in x
    requires forall i, j | 0 <= i < j < |y| :: y[i].index != y[j].index
    requires |order| == |y| && forall i | 0 <= i < |y| :: order[i] == y[i].index
    ensures IsRanking(scores, order)
  {
    forall i | 0 <= i < |y| ensures y[i] in x { assert y[i] in y; }
    forall k: nat | k < |scores| && (scores[k].Some? || NoneUsable(scores)) ensures k in order {
      var it :| it in x && it.index == k;
      var i :| 0 <= i < |y| && y[i] == it by { assert it in y; }
      assert order[i] == k;
    }
    forall i, j | 0 <= i < j < |y| ensures y[i].score <= y[j].score { assert ByScore(y[i], y[j]); }
  }

  /** The loop over the paths that have a score. */
  method CollectUsable(paths: seq<Path>, now: Nanos, timeout: Nanos, ghost scores: seq<Option<real>>)
    returns (x: seq<Item>)
    requires |scores| == |paths| && forall k | 0 <= k < |paths| :: scores[k] == paths[k].Score(now, timeout)
    ensures x != [] ==> Collected(scores, x)
    ensures x == [] <==> NoneUsable(scores)
  {
    x := [];
    for k := 0 to |paths|
      invariant forall it | it in x :: it.index < k && scores[it.index] == Some(it.score)
      invariant forall i | 0 <= i < k && scores[i].Some? :: Item(i, scores[i].value) in x
      invariant forall i, j | 0 <= i < j < |x| :: x[i].index < x[j].index
    {
      var s := paths[k].Score(now, timeout);
      if s.Some? { x := x + [Item(k, s.value)]; }
    }
    if x != [] {
      assert x[0] in x;
      forall k | 0 <= k < |scores| && scores[k].Some? ensures HasItem(x, k) { assert Item(k, scores[k].value) in x; }
    }
  }

  /** The loop that takes all paths. */
  method CollectAll(paths: seq<Path>, ghost scores: seq<Option<real>>) returns (x: seq<Item>)
    requires |scores| == |paths| && NoneUsable(scores)
    ensures Collected(scores, x)
  {
    x := [];
    for k := 0 to |paths|
      invariant |x| == k && forall i | 0 <= i < k :: x[i] == Item(i, 1e30)
    {
      x := x + [Item(k, 1e30)];
    }
    forall k | 0 <= k < |scores| ensures HasItem(x, k) { assert x[k] in x && x[k].index == k; }
  }

  method Ranked(paths: seq<Path>, now: Nanos, timeout: Nanos) returns (order: seq<nat>)
    ensures IsRanking(Scores(paths, now, timeout), order)
  {
    ghost var scores := Scores(paths, now, timeout);
    var x := CollectUsable(paths, now, timeout, scores);
    if |x| == 0 { x := CollectAll(paths, scores); }
    SortedItems(scores, x);
    var y := StableSort(x, ByScore);
    order := [];
    for k := 0 to |y|
      invariant |order| == k && forall i | 0 <= i < k :: order[i] == y[i].index
    {
      order := order + [y[k].index];
    }
    SortRanks(scores, x, y, order);
  }

  /** There is always a path to send on, and a usable one with the least score when any is usable. */
  lemma BestPath(scores: seq<Option<real>>, order: seq<nat>)
    requires IsRanking(scores, order) && scores != []
    ensures order != [] && order[0] < |scores|
    ensures forall k | 0 <= k < |scores| && scores[k].Some? ::
              scores[order[0]].Some? && scores[order[0]].value <= scores[k].value
  {
    if NoneUsable(scores) {
      assert 0 in order;
    } else {
      var u: nat :| u < |scores| && scores[u].Some?;
      assert u in order;
    }
    assert order[0] in order;
    forall k: nat | k < |scores| && scores[k].Some?
      ensures scores[order[0]].Some? && scores[order[0]].value <= scores[k].value
    {
      assert k in order;
      var j :| 0 <= j < |order| && order[j] == k;
    }
  }

  // ---------- duplicate suppression ----------

  const CAPACITY: nat := 16384
  const WINDOW: Nanos := 15 * SECOND

  /** A data frame number and the clock when it is looked up. */
  datatype Arrival = Arrival(number: nat, now: Nanos)

  function Prune(m: map<nat, Nanos>, now: Nanos): map<nat, Nanos> {
    if |m| <= CAPACITY then m else map k | k in m && m[k] >= now - WINDOW :: m[k]
  }

  function Remember(m: map<nat, Nanos>, a: Arrival): map<nat, Nanos> {
    if a.number in m then m else Prune(m[a.number := a.now], a.now)
  }

  /** The table after a run of lookups. */
  function After(arrivals: seq<Arrival>): map<nat, Nanos> {
    if arrivals == [] then map[]
    else Remember(After(arrivals[..|arrivals| - 1]), arrivals[|arrivals| - 1])
  }

  class Dedupe {
    var m: map<nat, Nanos>

    constructor ()
      ensures m == After([])
    {
      m := map[];
    }

    method Seen(number: nat, now: Nanos) returns (dup: bool)
      modifies this
      ensures dup <==> number in old(m)
      ensures m == Remember(old(m), Arrival(number, now))
    {
      if number in m {
        return true;
      }
      m := m[number := now];
      ghost var full := m;
      if |m| > CAPACITY {
        var cut := now - WINDOW;
        var todo := m.Keys;
        while todo != {}
          invariant todo <= full.Keys && m.Keys <= full.Keys
          invariant forall k | k in full :: k in m <==> (k in todo || full[k] >= cut)
          invariant forall k | k in m :: m[k] == full[k]
        {
          var k :| k in todo;
          if m[k] < cut { m := m - {k}; }
          todo := todo - {k};
        }
        assert m == Prune(full, now);
      }
      return false;
    }
  }

  predicate Accepted(run: seq<Arrival>, i: nat)
    requires i < |run|
  {
    run[i].number !in After(run[..i])
  }

  /** An accepted frame overfills the table, so that old entries are dropped. */
  predicate Prunes(run: seq<Arrival>, k: nat)
    requires k < |run|
  {
    Accepted(run, k) && |After(run[..k])| >= CAPACITY
  }

  /** Between i and j a pruning lookup took place more than 15 s after i. */
  ghost predicate Forgotten(run: seq<Arrival>, i: nat, j: nat)
    requires i < j <= |run|
  {
    exists k: nat :: i < k < j && Prunes(run, k) && run[k].now > run[i].now + WINDOW
  }

  /** The prefix of a run has the facts of the run. */
  lemma Prefix(run: seq<Arrival>, n: nat, i: nat)
    requires i < n <= |run|
    ensures Accepted(run[..n], i) == Accepted(run, i) && Prunes(run[..n], i) == Prunes(run, i)
    ensures run[..n][i] == run[i]
  {
    assert run[..n][..i] == run[..i];
  }

  lemma PrefixForgotten(run: seq<Arrival>, n: nat, i: nat)
    requires i < n <= |run|
    ensures Forgotten(run[..n], i, n) == Forgotten(run, i, n)
  {
    forall k: nat | i < k < n ensures Prunes(run[..n], k) == Prunes(run, k) && run[..n][k] == run[k] {
      Prefix(run, n, k);
    }
  }

  /** What is in the table: the accepted frames that were not forgotten, with the clock of their acceptance. */
  lemma {:induction false} TableHolds(run: seq<Arrival>, i: nat)
    requires i < |run| && Accepted(run, i) && !Forgotten(run, i, |run|)
    ensures run[i].number in After(run) && After(run)[run[i].number] == run[i].now
  {
    var n := |run| - 1;
    assert run[..n + 1] == run;
    if i < n {
      Prefix(run, n, i);
      PrefixForgotten(run, n, i);
      TableHolds(run[..n], i);
      if Prunes(run, n) {
        assert run[n].now <= run[i].now + WINDOW;
      }
    }
  }

  /** An old entry survives the last lookup exactly when that does not prune it. */
  lemma LastLookup(run: seq<Arrival>, number: nat)
    requires run != [] && number != run[|run| - 1].number
    ensures var n := |run| - 1;
            var m := After(run[..n]);
            && (number in After(run) <==>
                  number in m && (Prunes(run, n) ==> m[number] >= run[n].now - WINDOW))
            && (number in After(run) ==> After(run)[number] == m[number])
  {
  }

  lemma {:induction false} TableComesFrom(run: seq<Arrival>, number: nat) returns (i: nat)
    requires number in After(run)
    ensures i < |run| && run[i].number == number && Accepted(run, i) && !Forgotten(run, i, |run|)
    ensures After(run)[number] == run[i].now
  {
    var n := |run| - 1;
    assert run[..n + 1] == run;
    if run[n].number != number {
      LastLookup(run, number);
      i := TableComesFrom(run[..n], number);
      Prefix(run, n, i);
      PrefixForgotten(run, n, i);
    } else if Accepted(run, n) {
      i := n;
    } else {
      i := TableComesFrom(run[..n], number);
      Prefix(run, n, i);
      PrefixForgotten(run, n, i);
    }
  }

  /** Main result: a frame is dropped exactly when its number was accepted before and not forgotten since. */
  lemma DroppedExactly(run: seq<Arrival>, j: nat)
    requires j < |run|
    ensures !Accepted(run, j) <==>
            exists i: nat :: i < j && run[i].number == run[j].number && Accepted(run, i) && !Forgotten(run, i, j)
  {
    if !Accepted(run, j) {
      var i := TableComesFrom(run[..j], run[j].number);
      Prefix(run, j, i);
      PrefixForgotten(run, j, i);
    }
    if i: nat :| i < j && run[i].number == run[j].number && Accepted(run, i) && !Forgotten(run, i, j) {
      Prefix(run, j, i);
      PrefixForgotten(run, j, i);
      TableHolds(run[..j], i);
    }
  }

  ghost predicate ClockRuns(run: seq<Arrival>) {
    forall i, j | 0 <= i < j < |run| :: run[i].now <= run[j].now
  }

  /** A number is accepted twice only more than 15 s apart, and with a pruning of an overfull table in between. */
  lemma AcceptedTwice(run: seq<Arrival>, i: nat, j: nat)
    requires ClockRuns(run) && i < j < |run| && run[i].number == run[j].number
    requires Accepted(run, i) && Accepted(run, j)
    ensures run[j].now > run[i].now + 15_000_000_000 && Forgotten(run, i, j)
  {
    DroppedExactly(run, j);
  }

  /** At most 16384 entries, or none of them older than 15 s. */
  ghost predicate Bounded(m: map<nat, Nanos>, now: Nanos) {
    |m| <= 16384 || forall k | k in m :: m[k] >= now - 15_000_000_000
  }

  /** An accepting lookup leaves a bounded table; a dropping one only if the table was bounded at that clock before. */
  lemma TableBounded(m: map<nat, Nanos>, a: Arrival)
    ensures Bounded(Remember(m, a), a.now) <==> a.number !in m || Bounded(m, a.now)
  {
  }

  function Burst(n: nat): seq<Arrival> {
    if n == 0 then [] else Burst(n - 1) + [Arrival(n, 0)]
  }

  lemma {:induction false} BurstTable(n: nat)
    ensures forall k :: k in After(Burst(n)) <==> 1 <= k <= n
    ensures forall k | k in After(Burst(n)) :: After(Burst(n))[k] == 0
    ensures |After(Burst(n))| == n
  {
    if n > 0 {
      BurstTable(n - 1);
      assert Burst(n)[..|Burst(n)| - 1] == Burst(n - 1);
      var m := After(Burst(n - 1))[n := 0];
      assert |m| == n by { assert m.Keys == After(Burst(n - 1)).Keys + {n}; }
      assert Prune(m, 0) == m;
    }
  }

  lemma {:induction false} BurstLength(n: nat)
    ensures |Burst(n)| == n
  {
    if n > 0 { BurstLength(n - 1); }
  }

  /** A burst of 16385 frames, then a duplicate a minute later: the table is overfull and every entry is a
      minute old. */
  lemma DuplicateLeavesStaleTable()
    ensures |Burst(CAPACITY + 1)| == CAPACITY + 1
    ensures var run := Burst(CAPACITY + 1) + [Arrival(1, 60 * SECOND)];
            !Accepted(run, CAPACITY + 1) && !Bounded(After(run), 60 * SECOND)
  {
    var b, a := Burst(CAPACITY + 1), Arrival(1, 60 * SECOND);
    BurstTable(CAPACITY + 1);
    BurstLength(CAPACITY + 1);
    assert (b + [a])[..|b|] == b;
    assert 1 in After(b) && After(b)[1] == 0;
  }

  // ---------- sender and receiver together ----------

  datatype Frame = Data(number: nat, payload: seq<bv8>) | Ping(number: nat)

  const WRAP: nat := 0x1_0000_0000_0000_0000

  /** What a sender seals: packets from the interface and keepalive pings draw from one 64-bit counter. */
  datatype Send = Packet(payload: seq<bv8>) | Keepalive

  function Seal(s: Send, number: nat): Frame {
    match s case Packet(p) => Data(number, p) case Keepalive => Ping(number)
  }

  /** The k-th frame of a sender run carries the counter after k + 1 increments. */
  function Sealed(sends: seq<Send>): seq<Frame> {
    seq(|sends|, k requires 0 <= k < |sends| => Seal(sends[k], (k + 1) % WRAP))
  }

  class Sender {
    var counter: nat

    constructor ()
      ensures counter == 0
    {
      counter := 0;
    }

    method Next(s: Send) returns (f: Frame)
      modifies this
      ensures counter == (old(counter) + 1) % WRAP
      ensures f == Seal(s, counter)
    {
      counter := (counter + 1) % WRAP;
      f := Seal(s, counter);
    }

    /** A run of a fresh sender: the read loop and the keepalive loop take turns in some order. */
    method Run(sends: seq<Send>) returns (frames: seq<Frame>)
      requires counter == 0
      modifies this
      ensures frames == Sealed(sends) && counter == |sends| % WRAP
    {
      frames := [];
      for k := 0 to |sends|
        invariant counter == k % WRAP
        invariant |frames| == k && forall j | 0 <= j < k :: frames[j] == Sealed(sends)[j]
      {
        CounterStep(k);
        var f := Next(sends[k]);
        frames := frames + [f];
      }
    }
  }

  lemma CounterStep(k: nat)
    ensures (k % WRAP + 1) % WRAP == (k + 1) % WRAP
  {
  }

  /** Frame numbers repeat exactly when the 64-bit counter wraps. */
  lemma NumbersDistinct(sends: seq<Send>, i: nat, j: nat)
    requires i < j < |sends|
    ensures Sealed(sends)[i].number == Sealed(sends)[j].number <==> (j - i) % WRAP == 0
  {
  }

  /** Data frames as the network delivers them, in any order, any number of times, with clock readings. */
  datatype Delivery = Delivery(frame: Frame, now: Nanos)

  function Lookups(ds: seq<Delivery>): seq<Arrival> {
    seq(|ds|, k requires 0 <= k < |ds| => Arrival(ds[k].frame.number, ds[k].now))
  }

  /** Main result: whatever the network duplicates or reorders, a dropped frame is a second copy of an accepted frame
      that carried the same payload, as long as the sender's counter did not wrap. */
  lemma NothingLostToDedupe(sends: seq<Send>, ds: seq<Delivery>, j: nat)
    requires |sends| <= WRAP && j < |ds|
    requires forall d | d in ds :: d.frame.Data? && d.frame in Sealed(sends)
    requires !Accepted(Lookups(ds), j)
    ensures exists i: nat :: i < j && ds[i].frame == ds[j].frame && Accepted(Lookups(ds), i)
  {
    DroppedExactly(Lookups(ds), j);
    var i: nat :| i < j && Lookups(ds)[i].number == Lookups(ds)[j].number && Accepted(Lookups(ds), i);
    SameNumberSameFrame(sends, ds[i].frame, ds[j].frame) by {
      assert ds[i] in ds && ds[j] in ds;
      assert Lookups(ds)[i].number == ds[i].frame.number && Lookups(ds)[j].number == ds[j].frame.number;
    }
  }

  /** A delivery from one of two consecutive runs of the peer: a restarted sender counts from zero again, while the
      receiver keeps its table. */
  datatype Tagged = Tagged(second: bool, frame: Frame, now: Nanos)

  function TaggedLookups(ts: seq<Tagged>): seq<Arrival> {
    seq(|ts|, k requires 0 <= k < |ts| => Arrival(ts[k].frame.number, ts[k].now))
  }

  /** The first copy of a frame of the second run is dropped, and its packet lost, if and only if the first run's frame
      of that number was accepted before and not forgotten since. */
  lemma RestartLosesExactly(sends: seq<Send>, ts: seq<Tagged>, j: nat)
    requires |sends| <= WRAP && j < |ts| && ts[j].second
    requires forall t | t in ts :: t.frame.Data? && (t.second ==> t.frame in Sealed(sends))
    requires forall i | 0 <= i < j && ts[i].second :: ts[i].frame != ts[j].frame
    ensures !Accepted(TaggedLookups(ts), j) <==>
            exists i: nat :: i < j && !ts[i].second && ts[i].frame.number == ts[j].frame.number &&
              Accepted(TaggedLookups(ts), i) && !Forgotten(TaggedLookups(ts), i, j)
  {
    var run := TaggedLookups(ts);
    DroppedExactly(run, j);
    assert ts[j] in ts;
    forall i: nat | i < j && ts[i].second ensures ts[i].frame.number != ts[j].frame.number {
      assert ts[i] in ts;
      if ts[i].frame.number == ts[j].frame.number { SameNumberSameFrame(sends, ts[i].frame, ts[j].frame); }
    }
    if i: nat :| i < j && run[i].number == run[j].number && Accepted(run, i) && !Forgotten(run, i, j) {
      assert !ts[i].second && ts[i].frame.number == ts[j].frame.number;
    }
    forall i: nat | i < j && ts[i].frame.number == ts[j].frame.number ensures run[i].number == run[j].number {}
  }

  /** The first packets of two runs share a number, so that the second is dropped whatever it carries and whenever it
      comes. */
  lemma RestartLosesPacket(p: seq<bv8>, q: seq<bv8>, t: Nanos, later: Nanos)
    ensures var ts := [Tagged(false, Sealed([Packet(p)])[0], t), Tagged(true, Sealed([Packet(q)])[0], later)];
            Accepted(TaggedLookups(ts), 0) && !Accepted(TaggedLookups(ts), 1)
  {
    var ts := [Tagged(false, Sealed([Packet(p)])[0], t), Tagged(true, Sealed([Packet(q)])[0], later)];
    var run := TaggedLookups(ts);
    assert run == [Arrival(1, t), Arrival(1, later)];
    assert run[..0] == [] && run[..1] == [Arrival(1, t)] && run[..1][..0] == [];
    assert After(run[..1]) == Remember(map[], Arrival(1, t));
  }

  lemma SameNumberSameFrame(sends: seq<Send>, f: Frame, g: Frame)
    requires |sends| <= WRAP && f in Sealed(sends) && g in Sealed(sends) && f.number == g.number
    ensures f == g
  {
    var a: nat :| a < |sends| && Sealed(sends)[a] == f;
    var b: nat :| b < |sends| && Sealed(sends)[b] == g;
    if a < b { NumbersDistinct(sends, a, b); } else if b < a { NumbersDistinct(sends, b, a); }
  }
}
