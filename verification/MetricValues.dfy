/** What the points of a series show, told by the buckets that fall into their slots. */
module MetricValues {
  import opened Collections
  import opened MetricHistory

  // ----- which buckets a point stands for --------------------------------------------------------

  /** The bucket lies in interval `k`, or past it if it is the last. */
  predicate Falls(g: Grid, b: Bucket, k: int) {
    g.start + k * g.interval <= b.ts && (b.ts < g.start + (k + 1) * g.interval || k == g.maxPoints - 1)
  }

  predicate In(g: Grid, bs: seq<Bucket>, k: int, n: int) { 0 <= n < |bs| && Falls(g, bs[n], k) }

  lemma FallsInSlot(g: Grid, b: Bucket, k: int)
    requires GridOk(g) && g.start <= b.ts && 0 <= k < g.maxPoints
    ensures SlotOf(g, b) == k <==> Falls(g, b, k)
  {
    var d := b.ts - g.start;
    var q := d / g.interval;
    assert d == q * g.interval + d % g.interval;
    if k < q {
      MulMonotone(k + 1, q, g.interval);
    } else if q < k {
      MulMonotone(q + 1, k, g.interval);
    } else {
      assert (q + 1) * g.interval == q * g.interval + g.interval;
    }
  }

  function CountIn(g: Grid, bs: seq<Bucket>, k: int): nat {
    if bs == [] then 0
    else CountIn(g, bs[..|bs| - 1], k) + if Falls(g, bs[|bs| - 1], k) then bs[|bs| - 1].value.count else 0
  }

  function SumIn(g: Grid, bs: seq<Bucket>, k: int): real {
    if bs == [] then 0.0
    else SumIn(g, bs[..|bs| - 1], k) + if Falls(g, bs[|bs| - 1], k) then bs[|bs| - 1].value.sum else 0.0
  }

  ghost predicate Empty(g: Grid, bs: seq<Bucket>, k: int) { forall n :: !In(g, bs, k, n) }

  /** `v` is the least minimum of the buckets in the slot. */
  ghost predicate IsMin(g: Grid, bs: seq<Bucket>, k: int, v: real) {
    && (exists n | In(g, bs, k, n) :: bs[n].value.min == v)
    && (forall n | In(g, bs, k, n) :: v <= bs[n].value.min)
  }

  /** `v` is the greatest maximum of the buckets in the slot. */
  ghost predicate IsMax(g: Grid, bs: seq<Bucket>, k: int, v: real) {
    && (exists n | In(g, bs, k, n) :: bs[n].value.max == v)
    && (forall n | In(g, bs, k, n) :: bs[n].value.max <= v)
  }

  /** Bucket `n` has the earliest first value in the slot; of several, it is the first of them. */
  ghost predicate Earliest(g: Grid, bs: seq<Bucket>, k: int, n: int) {
    && In(g, bs, k, n)
    && (forall m | In(g, bs, k, m) :: bs[n].value.firstAt <= bs[m].value.firstAt)
    && (forall m | In(g, bs, k, m) && bs[m].value.firstAt == bs[n].value.firstAt :: n <= m)
  }

  /** Bucket `n` has the latest last value in the slot; of several, it is the last of them. */
  ghost predicate Latest(g: Grid, bs: seq<Bucket>, k: int, n: int) {
    && In(g, bs, k, n)
    && (forall m | In(g, bs, k, m) :: bs[m].value.lastAt <= bs[n].value.lastAt)
    && (forall m | In(g, bs, k, m) && bs[m].value.lastAt == bs[n].value.lastAt :: m <= n)
  }

  // ----- the group of a slot ---------------------------------------------------------------------

  ghost predicate Usual(g: Grid, bs: seq<Bucket>, k: int) {
    GridOk(g) && 0 <= k < g.maxPoints && forall i | 0 <= i < |bs| :: g.start <= bs[i].ts && bs[i].value.count > 0
  }

  lemma UsualBefore(g: Grid, bs: seq<Bucket>, k: int)
    requires Usual(g, bs, k) && bs != []
    ensures Usual(g, bs[..|bs| - 1], k)
  {
  }

  lemma GroupOneMoreBucket(g: Grid, bs: seq<Bucket>, k: int)
    requires Usual(g, bs, k) && bs != []
    ensures var b, before := bs[|bs| - 1], Group(g, bs[..|bs| - 1], k);
      Group(g, bs, k) == if Falls(g, b, k) then Merge(before, b.value) else before
  {
    hide Merge, SlotOf, Falls;
    var n := |bs| - 1;
    FallsInSlot(g, bs[n], k);
    var before := InSlot(g, bs[..n], k);
    assert (before + [bs[n].value])[..|before|] == before;
  }

  lemma {:induction false} GroupCounts(g: Grid, bs: seq<Bucket>, k: int)
    requires Usual(g, bs, k)
    ensures Group(g, bs, k).count == CountIn(g, bs, k) && Group(g, bs, k).sum == SumIn(g, bs, k)
    ensures Group(g, bs, k).count == 0 <==> Empty(g, bs, k)
  {
    hide Falls;
    if bs != [] {
      var n := |bs| - 1;
      UsualBefore(g, bs, k);
      GroupCounts(g, bs[..n], k);
      GroupOneMoreBucket(g, bs, k);
      EmptyOneMore(g, bs, k);
      if Group(g, bs[..n], k).count == 0 {
        EmptyHasNothing(g, bs[..n], k);
      }
    }
  }

  lemma EmptyOneMore(g: Grid, bs: seq<Bucket>, k: int)
    requires bs != []
    ensures Empty(g, bs, k) <==> Empty(g, bs[..|bs| - 1], k) && !Falls(g, bs[|bs| - 1], k)
  {
    hide Falls;
    InOneMore(g, bs, k);
    var rest := bs[..|bs| - 1];
    if Empty(g, bs, k) {
      forall n
        ensures !In(g, rest, k, n)
      {
        assert !In(g, bs, k, n);
      }
      assert !In(g, bs, k, |bs| - 1);
    }
  }

  lemma {:induction false} EmptyHasNothing(g: Grid, bs: seq<Bucket>, k: int)
    requires Usual(g, bs, k) && Empty(g, bs, k)
    ensures Group(g, bs, k) == NOTHING && SumIn(g, bs, k) == 0.0
  {
    hide Falls;
    if bs != [] {
      UsualBefore(g, bs, k);
      EmptyOneMore(g, bs, k);
      EmptyHasNothing(g, bs[..|bs| - 1], k);
      GroupOneMoreBucket(g, bs, k);
    }
  }

  /** The members of a slot with one more bucket. */
  lemma InOneMore(g: Grid, bs: seq<Bucket>, k: int)
    requires bs != []
    ensures forall n :: In(g, bs, k, n) <==> In(g, bs[..|bs| - 1], k, n) || (n == |bs| - 1 && Falls(g, bs[|bs| - 1], k))
  {
    hide Falls;
  }

  lemma {:induction false} GroupMin(g: Grid, bs: seq<Bucket>, k: int)
    requires Usual(g, bs, k) && !Empty(g, bs, k)
    ensures IsMin(g, bs, k, Group(g, bs, k).min)
  {
    hide Falls, Group;
    var n := |bs| - 1;
    NotEmpty(g, bs, k);
    var rest := bs[..n];
    UsualBefore(g, bs, k);
    GroupOneMoreBucket(g, bs, k);
    GroupCounts(g, rest, k);
    InOneMore(g, bs, k);
    if !Empty(g, rest, k) {
      GroupMin(g, rest, k);
      var i :| In(g, rest, k, i) && rest[i].value.min == Group(g, rest, k).min;
      assert In(g, bs, k, i) && bs[i] == rest[i];
    }
  }

  lemma NotEmpty(g: Grid, bs: seq<Bucket>, k: int)
    requires !Empty(g, bs, k)
    ensures bs != []
  {
  }

  lemma {:induction false} GroupMax(g: Grid, bs: seq<Bucket>, k: int)
    requires Usual(g, bs, k) && !Empty(g, bs, k)
    ensures IsMax(g, bs, k, Group(g, bs, k).max)
  {
    hide Falls, Group;
    var n := |bs| - 1;
    NotEmpty(g, bs, k);
    var rest := bs[..n];
    UsualBefore(g, bs, k);
    GroupOneMoreBucket(g, bs, k);
    GroupCounts(g, rest, k);
    InOneMore(g, bs, k);
    if !Empty(g, rest, k) {
      GroupMax(g, rest, k);
      var i :| In(g, rest, k, i) && rest[i].value.max == Group(g, rest, k).max;
      assert In(g, bs, k, i) && bs[i] == rest[i];
    }
  }

  lemma {:induction false} GroupFirst(g: Grid, bs: seq<Bucket>, k: int) returns (i: int)
    requires Usual(g, bs, k) && !Empty(g, bs, k)
    ensures Earliest(g, bs, k, i) && bs[i].value.first == Group(g, bs, k).first && bs[i].value.firstAt == Group(g, bs, k).firstAt
  {
    hide Falls, Group;
    var n := |bs| - 1;
    NotEmpty(g, bs, k);
    var rest := bs[..n];
    UsualBefore(g, bs, k);
    GroupOneMoreBucket(g, bs, k);
    GroupCounts(g, rest, k);
    InOneMore(g, bs, k);
    if Empty(g, rest, k) {
      i := n;
    } else {
      i := GroupFirst(g, rest, k);
      assert In(g, rest, k, i) && bs[i] == rest[i];
      if Falls(g, bs[n], k) && bs[n].value.firstAt < bs[i].value.firstAt {
        i := n;
      }
    }
  }

  lemma {:induction false} GroupLast(g: Grid, bs: seq<Bucket>, k: int) returns (i: int)
    requires Usual(g, bs, k) && !Empty(g, bs, k)
    ensures Latest(g, bs, k, i) && bs[i].value.last == Group(g, bs, k).last && bs[i].value.lastAt == Group(g, bs, k).lastAt
  {
    hide Falls, Group;
    var n := |bs| - 1;
    NotEmpty(g, bs, k);
    var rest := bs[..n];
    UsualBefore(g, bs, k);
    GroupOneMoreBucket(g, bs, k);
    GroupCounts(g, rest, k);
    InOneMore(g, bs, k);
    if Empty(g, rest, k) {
      i := n;
    } else {
      i := GroupLast(g, rest, k);
      assert In(g, rest, k, i) && bs[i] == rest[i];
      if Falls(g, bs[n], k) && bs[n].value.lastAt >= bs[i].value.lastAt {
        i := n;
      }
    }
  }

  // ----- the points ----------------------------------------------------------------------------------

  /** What a point of slot `k` shows under each algorithm. */
  ghost predicate Shows(g: Grid, bs: seq<Bucket>, k: int, algorithm: string, p: Point) {
    && p.time == g.start + k * g.interval
    && p.count == CountIn(g, bs, k)
    && (Empty(g, bs, k) ==> p.value == None && p.count == 0)
    && (!Empty(g, bs, k) ==>
          && p.count > 0
          && (p.value.Some? <==> algorithm in {"avg", "sum", "count", "min", "max", "first", "last"})
          && (algorithm == "sum" ==> p.value.value == SumIn(g, bs, k))
          && (algorithm == "count" ==> p.value.value == CountIn(g, bs, k) as real)
          && (algorithm == "avg" ==> p.value.value * CountIn(g, bs, k) as real == SumIn(g, bs, k))
          && (algorithm == "min" ==> IsMin(g, bs, k, p.value.value))
          && (algorithm == "max" ==> IsMax(g, bs, k, p.value.value))
          && (algorithm == "first" ==> exists n | Earliest(g, bs, k, n) :: p.value.value == bs[n].value.first)
          && (algorithm == "last" ==> exists n | Latest(g, bs, k, n) :: p.value.value == bs[n].value.last))
  }

  lemma GroupShows(g: Grid, bs: seq<Bucket>, k: int, algorithm: string)
    requires Usual(g, bs, k)
    ensures Shows(g, bs, k, algorithm, Point(TimeOf(g, k), Value(Group(g, bs, k), algorithm), Group(g, bs, k).count))
  {
    hide Group, Falls, IsMin, IsMax, Earliest, Latest, CountIn, SumIn, Empty;
    GroupCounts(g, bs, k);
    if !Empty(g, bs, k) {
      var a := Group(g, bs, k);
      GroupMin(g, bs, k);
      GroupMax(g, bs, k);
      var first := GroupFirst(g, bs, k);
      var last := GroupLast(g, bs, k);
      AverageTimesCount(a.sum, a.count);
    }
  }

  lemma AverageTimesCount(sum: real, count: nat)
    requires count > 0
    ensures sum / count as real * count as real == sum
  {
  }

  /** Every point of a series shows the buckets of its slot, by the algorithm asked for. */
  lemma PointsShowTheirBuckets(g: Grid, bs: seq<Bucket>, end: int, algorithm: string, points: seq<Point>, ks: seq<int>, i: nat)
    requires GridOk(g) && Within(bs, g.start, end) && SeriesOk(g, Present(bs), algorithm, points, ks) && i < |points|
    ensures 0 <= ks[i] < g.maxPoints && Shows(g, Present(bs), ks[i], algorithm, points[i])
  {
    hide Shows, Group, Value, InSlot;
    PresentInside(bs, g.start, end);
    GroupShows(g, Present(bs), ks[i], algorithm);
  }

  /** Without filling every point stands for some bucket; with filling there is one point per
      interval from the start until the end or the limit is reached. */
  lemma ShownSlots(g: Grid, bs: seq<Bucket>, end: int, algorithm: string, points: seq<Point>, ks: seq<int>, fill: bool, i: nat)
    requires GridOk(g) && Within(bs, g.start, end) && SeriesOk(g, Present(bs), algorithm, points, ks) && i < |points|
    requires Chosen(g, Present(bs), ks, fill, end)
    ensures !fill ==> points[i].count > 0
    ensures fill ==> points[i].time == g.start + i * g.interval
    ensures fill ==> |points| == g.maxPoints || g.start + |points| * g.interval > end
  {
    hide Value;
    PresentInside(bs, g.start, end);
    InSlotCounted(g, Present(bs), ks[i]);
    Counted(InSlot(g, Present(bs), ks[i]));
  }

  // ----- the interval ---------------------------------------------------------------------------------

  /** No smaller multiple of the step lets the points reach the length of the window. */
  lemma IntervalIsLeast(start: int, end: int, maxPoints: int, step: int, j: int)
    requires maxPoints > 0 && step > 0 && j > 0 && j % step == 0 && maxPoints * j >= (end - start) / SECOND
    ensures Interval(start, end, maxPoints, step) <= j
  {
    var w := (end - start) / SECOND;
    WholeSeconds(start, end, maxPoints);
    var whole := (w + maxPoints - 1) / maxPoints;
    CeilingIsLeast(w, maxPoints, j);
    var q := j / step;
    assert j == q * step;
    Positive(q, step);
    Bigger(q, step);
    var least := if whole > step then whole else step;
    CeilingIsLeast(least, step, q);
    MulMonotone((least + step - 1) / step, q, step);
  }

  lemma CeilingIsLeast(x: int, m: int, q: int)
    requires m > 0 && m * q >= x
    ensures (x + m - 1) / m <= q
  {
    var c := (x + m - 1) / m;
    assert c * m + (x + m - 1) % m == x + m - 1;
    if c > q {
      MulMonotone(q + 1, c, m);
    }
  }
}
