/** Down-sampling of metric history: buckets grouped into at most a given number of points. */
module MetricHistory {
  import opened Collections

  const SECOND := 1_000_000_000

  datatype Aggregate = Aggregate(count: nat, sum: real, min: real, max: real, first: real, last: real, firstAt: int, lastAt: int)

  /** One bucket of a metric, which may hold nothing; `legacy` marks averages of an old release. */
  datatype Bucket = Bucket(ts: int, value: Aggregate, legacy: bool)

  datatype Point = Point(time: int, value: Option<real>, count: nat)

  datatype Result = Unsupported | Series(interval: int, points: seq<Point>)

  const NOTHING := Aggregate(0, 0.0, 0.0, 0.0, 0.0, 0.0, 0, 0)

  // ----- aggregates ------------------------------------------------------------------------------

  function Merge(a: Aggregate, b: Aggregate): Aggregate {
    if a.count == 0 then b
    else if b.count == 0 then a
    else
      Aggregate(a.count + b.count, a.sum + b.sum,
                if b.min < a.min then b.min else a.min, if b.max > a.max then b.max else a.max,
                if b.firstAt < a.firstAt then b.first else a.first, if b.lastAt >= a.lastAt then b.last else a.last,
                if b.firstAt < a.firstAt then b.firstAt else a.firstAt, if b.lastAt >= a.lastAt then b.lastAt else a.lastAt)
  }

  function MergeAll(xs: seq<Aggregate>): Aggregate {
    if xs == [] then NOTHING else Merge(MergeAll(xs[..|xs| - 1]), xs[|xs| - 1])
  }

  lemma MergeAssociative(a: Aggregate, b: Aggregate, c: Aggregate)
    ensures Merge(Merge(a, b), c) == Merge(a, Merge(b, c))
  {
  }

  ghost predicate AllCounted(xs: seq<Aggregate>) { forall i | 0 <= i < |xs| :: xs[i].count > 0 }

  lemma {:induction false} MergeConcat(xs: seq<Aggregate>, ys: seq<Aggregate>)
    requires AllCounted(xs) && AllCounted(ys)
    ensures MergeAll(xs + ys) == Merge(MergeAll(xs), MergeAll(ys))
    ensures xs != [] ==> MergeAll(xs).count > 0
  {
    Counted(xs);
    if ys == [] {
      assert xs + ys == xs;
    } else {
      var n := |ys| - 1;
      assert (xs + ys)[..|xs + ys| - 1] == xs + ys[..n];
      MergeConcat(xs, ys[..n]);
      MergeAssociative(MergeAll(xs), MergeAll(ys[..n]), ys[n]);
    }
  }

  lemma {:induction false} Counted(xs: seq<Aggregate>)
    requires AllCounted(xs)
    ensures xs != [] ==> MergeAll(xs).count > 0
  {
    if |xs| > 1 {
      Counted(xs[..|xs| - 1]);
    }
  }

  function TotalCount(xs: seq<Aggregate>): nat {
    if xs == [] then 0 else TotalCount(xs[..|xs| - 1]) + xs[|xs| - 1].count
  }

  lemma {:induction false} MergeCounts(xs: seq<Aggregate>)
    ensures MergeAll(xs).count == TotalCount(xs)
  {
    if xs != [] {
      MergeCounts(xs[..|xs| - 1]);
    }
  }

  // ----- the interval ------------------------------------------------------------------------------

  /** Seconds per point: enough for the whole window, rounded up to a multiple of the step. */
  function Interval(start: int, end: int, maxPoints: int, step: int): int
    requires maxPoints > 0 && step > 0
  {
    var whole := (end - start + (maxPoints - 1) * SECOND) / (maxPoints * SECOND);
    var least := if whole > step then whole else step;
    (least + step - 1) / step * step
  }

  lemma RoundUp(x: int, step: int)
    requires step > 0
    ensures (x + step - 1) / step * step >= x && (x + step - 1) / step * step % step == 0
  {
    var q := (x + step - 1) / step;
    assert q * step + (x + step - 1) % step == x + step - 1;
    MultipleOf(q, step);
  }

  lemma MultipleOf(q: int, step: int)
    requires step > 0
    ensures q * step % step == 0
  {
    var m := q * step;
    assert m == q * step + 0;
    DivUnique(m, step, q, 0);
  }

  lemma DivUnique(x: int, d: int, q: int, r: int)
    requires d > 0 && x == q * d + r && 0 <= r < d
    ensures x / d == q && x % d == r
  {
    var p, s := x / d, x % d;
    assert x == p * d + s;
    assert (q - p) * d == s - r;
    if q > p {
      Bigger(q - p, d);
    } else if q < p {
      Bigger(p - q, d);
    }
  }

  lemma Bigger(k: int, d: int)
    requires k >= 1 && d > 0
    ensures k * d >= d
  {
  }

  /** The interval is a positive multiple of the step, and the points reach as many whole seconds as
      the window lasts. */
  lemma IntervalCovers(start: int, end: int, maxPoints: int, step: int)
    requires maxPoints > 0 && step > 0
    ensures var i := Interval(start, end, maxPoints, step);
      i >= step && i % step == 0 && maxPoints * i >= (end - start) / SECOND
  {
    var w := (end - start) / SECOND;
    var whole := (w + maxPoints - 1) / maxPoints;
    var least := if whole > step then whole else step;
    WholeSeconds(start, end, maxPoints);
    RoundUp(least, step);
    CeilingCovers(w, maxPoints);
    MulMonotone(whole, Interval(start, end, maxPoints, step), maxPoints);
  }

  /** Only the whole seconds of the window's length count towards the interval. */
  lemma WholeSeconds(start: int, end: int, maxPoints: int)
    requires maxPoints > 0
    ensures (end - start + (maxPoints - 1) * SECOND) / (maxPoints * SECOND) == ((end - start) / SECOND + maxPoints - 1) / maxPoints
  {
    var x := end - start + (maxPoints - 1) * SECOND;
    DivUnique(x, SECOND, (end - start) / SECOND + maxPoints - 1, (end - start) % SECOND);
    DivideTwice(x, maxPoints);
  }

  lemma DivideTwice(x: int, m: int)
    requires m > 0
    ensures x / (m * SECOND) == x / SECOND / m
  {
    var y := x / SECOND;
    var q, r := y / m, y % m;
    assert x == y * SECOND + x % SECOND && y == q * m + r;
    assert x == q * (m * SECOND) + (r * SECOND + x % SECOND) by {
      assert (q * m + r) * SECOND == q * m * SECOND + r * SECOND;
      Associate(q, m);
    }
    MulMonotone(r + 1, m, SECOND);
    DivUnique(x, m * SECOND, q, r * SECOND + x % SECOND);
  }

  /** The points reach the length of the window and no further exactly when that length, in whole
      seconds, is a positive multiple of what they cover at the finest interval. */
  lemma ReachesExactly(start: int, end: int, maxPoints: int, step: int)
    requires maxPoints > 0 && step > 0
    ensures var w := (end - start) / SECOND;
      maxPoints * Interval(start, end, maxPoints, step) == w <==> w > 0 && w % (maxPoints * step) == 0
  {
    hide Interval;
    var w, i := (end - start) / SECOND, Interval(start, end, maxPoints, step);
    IntervalCovers(start, end, maxPoints, step);
    Bigger(maxPoints, step);
    if maxPoints * i == w {
      MultipleInSteps(maxPoints, step, i);
    }
    if w > 0 && w % (maxPoints * step) == 0 {
      FinestMultiple(start, end, maxPoints, step, w / (maxPoints * step));
    }
  }

  lemma MultipleInSteps(m: int, step: int, i: int)
    requires m > 0 && step > 0 && i >= step && i % step == 0
    ensures m * step > 0 && m * i > 0 && m * i % (m * step) == 0
  {
    var q := i / step;
    assert i == q * step;
    Bigger(m, step);
    Bigger(m, i);
    Reorder(m, q, step);
    MultipleOf(q, m * step);
  }

  lemma Reorder(m: int, q: int, step: int)
    ensures m * (q * step) == q * (m * step)
  {
  }

  lemma FinestMultiple(start: int, end: int, maxPoints: int, step: int, q: int)
    requires maxPoints > 0 && step > 0 && (end - start) / SECOND == q * (maxPoints * step) && q * (maxPoints * step) > 0
    ensures Interval(start, end, maxPoints, step) == q * step
    ensures maxPoints * (q * step) == (end - start) / SECOND
  {
    var a, w := q * step, (end - start) / SECOND;
    Reorder(maxPoints, q, step);
    Positive(q, maxPoints * step);
    Bigger(q, step);
    WholeSeconds(start, end, maxPoints);
    assert w == a * maxPoints;
    CeilingOfMultiple(a, maxPoints);
    CeilingOfMultiple(q, step);
  }

  lemma CeilingOfMultiple(a: int, m: int)
    requires m > 0
    ensures (a * m + m - 1) / m == a
  {
    DivUnique(a * m + m - 1, m, a, m - 1);
  }

  lemma Positive(q: int, d: int)
    requires q * d > 0 && d > 0
    ensures q >= 1
  {
    if q <= 0 {
      MulMonotone(q, 0, d);
    }
  }

  lemma MulMonotone(a: int, b: int, m: int)
    requires a <= b && m >= 0
    ensures a * m <= b * m
  {
  }

  lemma Associate(q: int, m: int)
    ensures q * m * SECOND == q * (m * SECOND)
  {
  }

  lemma CeilingCovers(d: int, m: int)
    requires m > 0
    ensures (d + m - 1) / m * m >= d
  {
    assert (d + m - 1) / m * m + (d + m - 1) % m == d + m - 1;
  }

  // ----- slots ------------------------------------------------------------------------------------------

  /** The slot of a bucket before the last slot takes what is left. */
  function RawSlot(start: int, interval: int, ts: int): int
    requires interval > 0
  {
    (ts - start) / interval
  }

  function Slot(start: int, interval: int, maxPoints: int, ts: int): int
    requires interval > 0
  {
    if RawSlot(start, interval, ts) < maxPoints - 1 then RawSlot(start, interval, ts) else maxPoints - 1
  }

  /** A bucket is moved to the last slot exactly when it lies past the last interval. */
  lemma ClampExactly(start: int, maxPoints: int, interval: int, ts: int)
    requires interval > 0 && maxPoints > 0
    ensures Slot(start, interval, maxPoints, ts) != RawSlot(start, interval, ts) <==> ts - start >= maxPoints * interval
  {
    var q := RawSlot(start, interval, ts);
    assert q * interval + (ts - start) % interval == ts - start;
    if q >= maxPoints {
      MulMonotone(maxPoints, q, interval);
    } else {
      MulMonotone(q + 1, maxPoints, interval);
    }
  }

  /** The bucket at `ts` belongs to a later interval than the last slot, which takes it in. */
  predicate Moved(start: int, end: int, maxPoints: int, step: int, ts: int)
    requires maxPoints > 0 && step > 0 && Interval(start, end, maxPoints, step) > 0
  {
    var i := Interval(start, end, maxPoints, step);
    Slot(start / SECOND, i, maxPoints, ts) != RawSlot(start / SECOND, i, ts)
  }

  /** The window begins at a later fraction of a second than it ends at, and its whole seconds fill
      the points exactly. */
  predicate CutShort(start: int, end: int, maxPoints: int, step: int)
    requires maxPoints > 0 && step > 0
  {
    var w := (end - start) / SECOND;
    end % SECOND < start % SECOND && w > 0 && w % (maxPoints * step) == 0
  }

  /** Whole seconds of the length, and seconds between the two ends as the buckets count them. */
  lemma SpanOfWindow(start: int, end: int)
    ensures (end - start) / SECOND == end / SECOND - start / SECOND - (if end % SECOND < start % SECOND then 1 else 0)
  {
  }

  /** A bucket before the last second of the window is moved exactly when the points do not reach
      that second; this is so exactly for the windows that are cut short, and then only the bucket
      one second before the end is moved. */
  lemma ClampOnlyAtEnd(start: int, end: int, maxPoints: int, step: int)
    requires maxPoints > 0 && step > 0 && start <= end
    ensures var i := Interval(start, end, maxPoints, step);
      && i > 0
      && ((exists ts | start / SECOND <= ts < end / SECOND :: Moved(start, end, maxPoints, step, ts))
          <==> end / SECOND - start / SECOND > maxPoints * i)
      && (end / SECOND - start / SECOND > maxPoints * i <==> CutShort(start, end, maxPoints, step))
      && (forall ts | start / SECOND <= ts < end / SECOND :: Moved(start, end, maxPoints, step, ts) ==> ts == end / SECOND - 1)
  {
    var i, a, z := Interval(start, end, maxPoints, step), start / SECOND, end / SECOND;
    IntervalCovers(start, end, maxPoints, step);
    ReachesExactly(start, end, maxPoints, step);
    SpanOfWindow(start, end);
    assert z - a > maxPoints * i <==> CutShort(start, end, maxPoints, step);
    forall ts
      ensures Moved(start, end, maxPoints, step, ts) <==> ts - a >= maxPoints * i
    {
      ClampExactly(a, maxPoints, i, ts);
    }
    if z - a > maxPoints * i {
      assert Moved(start, end, maxPoints, step, z - 1);
    }
  }

  /** In a window whose ends are at the same fraction of a second, whole seconds above all, only the
      bucket at the end can be moved. */
  lemma EqualFractionsOnlyAtEnd(start: int, end: int, maxPoints: int, step: int, ts: int)
    requires maxPoints > 0 && step > 0 && start <= end && start % SECOND <= end % SECOND
    requires start / SECOND <= ts <= end / SECOND
    ensures Interval(start, end, maxPoints, step) > 0
    ensures Moved(start, end, maxPoints, step, ts) ==> ts == end / SECOND
  {
    hide Moved, Interval;
    ClampOnlyAtEnd(start, end, maxPoints, step);
  }

  /** A window that is cut short: 500 points of a minute each, from half a second to 30001.2
      seconds.  The bucket of the minute at 30000 seconds is moved though the window goes on. */
  lemma ClampInsideFractionalWindow()
    ensures var start, end := SECOND / 2, 30001 * SECOND + SECOND / 5;
      && CutShort(start, end, 500, 60) && Interval(start, end, 500, 60) == 60
      && 30000 < end / SECOND && Moved(start, end, 500, 60, 30000)
  {
  }

  ghost predicate Ascending(bs: seq<Bucket>) {
    forall i, j | 0 <= i < j < |bs| :: bs[i].ts <= bs[j].ts
  }

  ghost predicate Inside(bs: seq<Bucket>, start: int, end: int) {
    forall i | 0 <= i < |bs| :: start <= bs[i].ts <= end && bs[i].value.count > 0
  }

  function Values(bs: seq<Bucket>): (xs: seq<Aggregate>)
    ensures |xs| == |bs|
  {
    seq(|bs|, i requires 0 <= i < |bs| => bs[i].value)
  }

  /** The window of a query, as the grouping needs it. */
  datatype Grid = Grid(start: int, interval: int, maxPoints: int)

  ghost predicate GridOk(g: Grid) { g.interval > 0 && g.maxPoints > 0 }

  function SlotOf(g: Grid, b: Bucket): int
    requires g.interval > 0
  {
    Slot(g.start, g.interval, g.maxPoints, b.ts)
  }

  function TimeOf(g: Grid, k: int): int { g.start + k * g.interval }

  /** The aggregates that fall into slot `k`, in order. */
  function InSlot(g: Grid, bs: seq<Bucket>, k: int): seq<Aggregate>
    requires g.interval > 0
  {
    if bs == [] then []
    else
      var rest := InSlot(g, bs[..|bs| - 1], k);
      if SlotOf(g, bs[|bs| - 1]) == k then rest + [bs[|bs| - 1].value] else rest
  }

  /** The slots one after the other. */
  function FirstSlots(g: Grid, bs: seq<Bucket>, n: nat): seq<Aggregate>
    requires g.interval > 0
  {
    if n == 0 then [] else FirstSlots(g, bs, n - 1) + InSlot(g, bs, n - 1)
  }

  lemma SlotMonotone(g: Grid, a: Bucket, b: Bucket)
    requires GridOk(g) && a.ts <= b.ts
    ensures SlotOf(g, a) <= SlotOf(g, b)
  {
    var p, q := RawSlot(g.start, g.interval, a.ts), RawSlot(g.start, g.interval, b.ts);
    if p > q {
      assert p * g.interval + (a.ts - g.start) % g.interval == a.ts - g.start;
      assert q * g.interval + (b.ts - g.start) % g.interval == b.ts - g.start;
      MulMonotone(q + 1, p, g.interval);
    }
  }

  lemma SlotInRange(g: Grid, b: Bucket)
    requires GridOk(g) && g.start <= b.ts
    ensures 0 <= SlotOf(g, b) < g.maxPoints
    ensures TimeOf(g, SlotOf(g, b)) <= b.ts
  {
    var q := RawSlot(g.start, g.interval, b.ts);
    assert q * g.interval + (b.ts - g.start) % g.interval == b.ts - g.start;
    MulMonotone(SlotOf(g, b), q, g.interval);
  }

  lemma {:induction false} NothingBeyond(g: Grid, bs: seq<Bucket>, k: int)
    requires GridOk(g) && forall i | 0 <= i < |bs| :: SlotOf(g, bs[i]) != k
    ensures InSlot(g, bs, k) == []
  {
    if bs != [] {
      NothingBeyond(g, bs[..|bs| - 1], k);
    }
  }

  lemma {:induction false} OneMoreBucket(g: Grid, bs: seq<Bucket>, b: Bucket, n: nat)
    requires GridOk(g) && forall i | 0 <= i < |bs| :: SlotOf(g, bs[i]) <= SlotOf(g, b)
    requires 0 <= SlotOf(g, b)
    ensures FirstSlots(g, bs + [b], n) == FirstSlots(g, bs, n) + if SlotOf(g, b) < n then [b.value] else []
  {
    hide SlotOf;
    if n > 0 {
      OneMoreBucket(g, bs, b, n - 1);
      assert (bs + [b])[..|bs|] == bs;
      if SlotOf(g, b) < n - 1 {
        NothingBeyond(g, bs, n - 1);
      }
    }
  }

  /** Grouping by slot only cuts the time-ordered buckets into consecutive pieces. */
  lemma {:induction false} SlotsCutTheList(g: Grid, bs: seq<Bucket>)
    requires GridOk(g) && Ascending(bs) && forall i | 0 <= i < |bs| :: g.start <= bs[i].ts
    ensures FirstSlots(g, bs, g.maxPoints) == Values(bs)
  {
    hide SlotOf;
    if bs == [] {
      EmptySlots(g, g.maxPoints);
    } else {
      var n := |bs| - 1;
      SlotsCutTheList(g, bs[..n]);
      SlotInRange(g, bs[n]);
      forall i | 0 <= i < n
        ensures SlotOf(g, bs[..n][i]) <= SlotOf(g, bs[n])
      {
        SlotMonotone(g, bs[i], bs[n]);
      }
      OneMoreBucket(g, bs[..n], bs[n], g.maxPoints);
      assert bs[..n] + [bs[n]] == bs;
    }
  }

  lemma {:induction false} EmptySlots(g: Grid, n: nat)
    requires GridOk(g)
    ensures FirstSlots(g, [], n) == []
  {
    if n > 0 {
      EmptySlots(g, n - 1);
    }
  }

  lemma {:induction false} InSlotCounted(g: Grid, bs: seq<Bucket>, k: int)
    requires GridOk(g) && forall i | 0 <= i < |bs| :: bs[i].value.count > 0
    ensures AllCounted(InSlot(g, bs, k))
  {
    if bs != [] {
      InSlotCounted(g, bs[..|bs| - 1], k);
    }
  }

  lemma {:induction false} FirstSlotsCounted(g: Grid, bs: seq<Bucket>, n: nat)
    requires GridOk(g) && forall i | 0 <= i < |bs| :: bs[i].value.count > 0
    ensures AllCounted(FirstSlots(g, bs, n))
  {
    if n > 0 {
      FirstSlotsCounted(g, bs, n - 1);
      InSlotCounted(g, bs, n - 1);
    }
  }

  /** What the grouping stores for slot `k`. */
  function Group(g: Grid, bs: seq<Bucket>, k: int): Aggregate
    requires g.interval > 0
  {
    MergeAll(InSlot(g, bs, k))
  }

  function Groups(g: Grid, bs: seq<Bucket>, ks: seq<int>): (xs: seq<Aggregate>)
    requires g.interval > 0
    ensures |xs| == |ks|
  {
    seq(|ks|, i requires 0 <= i < |ks| => Group(g, bs, ks[i]))
  }

  ghost predicate Increasing(ks: seq<int>) {
    forall i, j | 0 <= i < j < |ks| :: ks[i] < ks[j]
  }

  /** The chosen slots are the non-empty slots below `n`, with any empty ones thrown in. */
  ghost predicate Covers(g: Grid, bs: seq<Bucket>, ks: seq<int>, n: nat)
    requires g.interval > 0
  {
    && Increasing(ks) && (forall i | 0 <= i < |ks| :: 0 <= ks[i] < n)
    && forall k | 0 <= k < n && InSlot(g, bs, k) != [] :: k in ks
  }

  lemma CoversWithLast(g: Grid, bs: seq<Bucket>, ks: seq<int>, n: nat)
    requires g.interval > 0 && n > 0 && Covers(g, bs, ks, n) && ks != [] && ks[|ks| - 1] == n - 1
    ensures Covers(g, bs, ks[..|ks| - 1], n - 1)
  {
    hide InSlot;
    var m := |ks| - 1;
    forall k | 0 <= k < n - 1 && InSlot(g, bs, k) != []
      ensures k in ks[..m]
    {
      var i :| 0 <= i < |ks| && ks[i] == k;
      assert ks[..m][i] == k;
    }
  }

  lemma CoversWithoutLast(g: Grid, bs: seq<Bucket>, ks: seq<int>, n: nat)
    requires g.interval > 0 && n > 0 && Covers(g, bs, ks, n) && (ks == [] || ks[|ks| - 1] != n - 1)
    ensures Covers(g, bs, ks, n - 1) && InSlot(g, bs, n - 1) == []
  {
    hide InSlot;
    assert n - 1 !in ks;
  }

  /** Merging the groups of the chosen slots is merging all their buckets. */
  lemma {:induction false} GroupsMerge(g: Grid, bs: seq<Bucket>, ks: seq<int>, n: nat)
    requires GridOk(g) && Covers(g, bs, ks, n) && forall i | 0 <= i < |bs| :: bs[i].value.count > 0
    ensures MergeAll(Groups(g, bs, ks)) == MergeAll(FirstSlots(g, bs, n))
    decreases n
  {
    hide InSlot, Merge, MergeAll, Covers, FirstSlots, Groups, AllCounted;
    if n == 0 {
      NoSlots(g, bs, ks);
    } else {
      FirstSlotsCounted(g, bs, n - 1);
      InSlotCounted(g, bs, n - 1);
      FirstSlotsOneMore(g, bs, n);
      MergeConcat(FirstSlots(g, bs, n - 1), InSlot(g, bs, n - 1));
      if ks != [] && ks[|ks| - 1] == n - 1 {
        CoversWithLast(g, bs, ks, n);
        GroupsMerge(g, bs, ks[..|ks| - 1], n - 1);
        GroupsOneMore(g, bs, ks);
      } else {
        CoversWithoutLast(g, bs, ks, n);
        GroupsMerge(g, bs, ks, n - 1);
        NothingAdds(FirstSlots(g, bs, n - 1));
        NothingMerged();
      }
    }
  }

  lemma NoSlots(g: Grid, bs: seq<Bucket>, ks: seq<int>)
    requires g.interval > 0 && Covers(g, bs, ks, 0)
    ensures MergeAll(Groups(g, bs, ks)) == MergeAll(FirstSlots(g, bs, 0))
  {
    hide InSlot;
    PigeonHole(ks, 0);
  }

  lemma FirstSlotsOneMore(g: Grid, bs: seq<Bucket>, n: nat)
    requires g.interval > 0 && n > 0
    ensures FirstSlots(g, bs, n) == FirstSlots(g, bs, n - 1) + InSlot(g, bs, n - 1)
  {
  }

  lemma GroupsOneMore(g: Grid, bs: seq<Bucket>, ks: seq<int>)
    requires g.interval > 0 && ks != []
    ensures MergeAll(Groups(g, bs, ks)) == Merge(MergeAll(Groups(g, bs, ks[..|ks| - 1])), MergeAll(InSlot(g, bs, ks[|ks| - 1])))
  {
    hide InSlot, Merge;
    assert Groups(g, bs, ks)[..|ks| - 1] == Groups(g, bs, ks[..|ks| - 1]);
  }

  lemma NothingMerged()
    ensures MergeAll([]) == NOTHING
  {
  }

  lemma NothingAdds(xs: seq<Aggregate>)
    requires AllCounted(xs)
    ensures Merge(MergeAll(xs), NOTHING) == MergeAll(xs)
  {
    Counted(xs);
  }

  /** Down-sampling conserves data: merging the points' groups in time order gives exactly what
      merging all time-ordered buckets gives, and the counts add up. */
  lemma DownSamplingConserves(g: Grid, bs: seq<Bucket>, ks: seq<int>)
    requires GridOk(g) && Ascending(bs) && Covers(g, bs, ks, g.maxPoints)
    requires forall i | 0 <= i < |bs| :: g.start <= bs[i].ts && bs[i].value.count > 0
    ensures MergeAll(Groups(g, bs, ks)) == MergeAll(Values(bs))
    ensures TotalCount(Groups(g, bs, ks)) == TotalCount(Values(bs))
  {
    GroupsMerge(g, bs, ks, g.maxPoints);
    SlotsCutTheList(g, bs);
    MergeCounts(Groups(g, bs, ks));
    MergeCounts(Values(bs));
  }

  // ----- the series ---------------------------------------------------------------------------------------

  const AVERAGES := {"avg", "sum", "count"}

  function Value(a: Aggregate, algorithm: string): Option<real> {
    if a.count == 0 then None
    else match algorithm
      case "avg" => Some(a.sum / a.count as real)
      case "sum" => Some(a.sum)
      case "count" => Some(a.count as real)
      case "min" => Some(a.min)
      case "max" => Some(a.max)
      case "first" => Some(a.first)
      case "last" => Some(a.last)
      case _ => None
  }

  lemma TimesDiffer(g: Grid, a: int, b: int)
    requires GridOk(g) && TimeOf(g, a) == TimeOf(g, b)
    ensures a == b
  {
    assert (b - a) * g.interval == b * g.interval - a * g.interval == 0;
    assert (a - b) * g.interval == a * g.interval - b * g.interval == 0;
    if a < b {
      Bigger(b - a, g.interval);
    } else if b < a {
      Bigger(a - b, g.interval);
    }
  }

  lemma TimesAscend(g: Grid, a: int, b: int)
    requires GridOk(g) && TimeOf(g, a) < TimeOf(g, b)
    ensures a < b
  {
    if b <= a {
      MulMonotone(b, a, g.interval);
    }
  }

  /** `grouped` holds the group of every slot that has buckets, under the slot's time. */
  ghost predicate Grouped(g: Grid, bs: seq<Bucket>, grouped: map<int, Aggregate>)
    requires g.interval > 0
  {
    && (forall k :: TimeOf(g, k) in grouped <==> InSlot(g, bs, k) != [])
    && (forall k | TimeOf(g, k) in grouped :: grouped[TimeOf(g, k)] == Group(g, bs, k))
    && (forall t | t in grouped :: exists k :: t == TimeOf(g, k))
  }

  lemma GroupOne(g: Grid, bs: seq<Bucket>, n: nat, grouped: map<int, Aggregate>)
    requires GridOk(g) && n < |bs| && Grouped(g, bs[..n], grouped)
    ensures var t := TimeOf(g, SlotOf(g, bs[n]));
      Grouped(g, bs[..n + 1], grouped[t := Merge(if t in grouped then grouped[t] else NOTHING, bs[n].value)])
  {
    hide SlotOf, Merge, TimeOf;
    var s := SlotOf(g, bs[n]);
    var t := TimeOf(g, s);
    var after := grouped[t := Merge(if t in grouped then grouped[t] else NOTHING, bs[n].value)];
    assert bs[..n + 1][..n] == bs[..n];
    forall k
      ensures TimeOf(g, k) in after <==> InSlot(g, bs[..n + 1], k) != []
      ensures TimeOf(g, k) in after ==> after[TimeOf(g, k)] == Group(g, bs[..n + 1], k)
    {
      if k == s {
        var before := InSlot(g, bs[..n], k);
        assert InSlot(g, bs[..n + 1], k) == before + [bs[n].value];
        assert (before + [bs[n].value])[..|before|] == before;
        assert Group(g, bs[..n + 1], k) == Merge(Group(g, bs[..n], k), bs[n].value);
        assert t !in grouped ==> before == [];
      } else if TimeOf(g, k) == t {
        TimesDiffer(g, k, s);
      }
    }
  }

  method GroupBuckets(g: Grid, bs: seq<Bucket>) returns (grouped: map<int, Aggregate>)
    requires GridOk(g)
    ensures Grouped(g, bs, grouped)
  {
    hide SlotOf, Merge, Grouped, TimeOf;
    grouped := map[];
    NothingGrouped(g);
    assert bs[..0] == [];
    for i := 0 to |bs|
      invariant Grouped(g, bs[..i], grouped)
    {
      GroupOne(g, bs, i, grouped);
      var t := TimeOf(g, SlotOf(g, bs[i]));
      grouped := grouped[t := Merge(if t in grouped then grouped[t] else NOTHING, bs[i].value)];
    }
    assert bs[..|bs|] == bs;
  }

  lemma NothingGrouped(g: Grid)
    requires GridOk(g)
    ensures Grouped(g, [], map[])
  {
  }

  /** The smallest element of a set. */
  method Least(s: set<int>) returns (m: int)
    requires s != {}
    ensures m in s && forall x | x in s :: m <= x
  {
    m := Pick(s);
    var todo := s - {m};
    while todo != {}
      invariant todo <= s && m in s
      invariant forall x | x in s && x !in todo :: m <= x
      decreases |todo|
    {
      var x := Pick(todo);
      if x < m {
        m := x;
      }
      todo := todo - {x};
    }
  }

  method SortedKeys(s: set<int>) returns (r: seq<int>)
    ensures Increasing(r) && forall x :: x in r <==> x in s
  {
    r := [];
    var todo := s;
    while todo != {}
      invariant todo <= s && Increasing(r)
      invariant forall x :: x in r <==> x in s && x !in todo
      invariant forall i, y | 0 <= i < |r| && y in todo :: r[i] < y
      decreases |todo|
    {
      var m := Least(todo);
      r := r + [m];
      todo := todo - {m};
    }
  }

  /** The slots behind a list of times. */
  ghost predicate TimesOf(g: Grid, times: seq<int>, ks: seq<int>) {
    |times| == |ks| && forall i | 0 <= i < |ks| :: times[i] == TimeOf(g, ks[i])
  }

  /** The times shown when empty slots are filled: one per slot up to the end of the window. */
  method FilledTimes(g: Grid, end: int) returns (times: seq<int>, ghost ks: seq<int>)
    requires GridOk(g) && g.start <= end
    ensures TimesOf(g, times, ks) && |ks| <= g.maxPoints && forall i | 0 <= i < |ks| :: ks[i] == i
    ensures |ks| == g.maxPoints || TimeOf(g, |ks|) > end
  {
    times, ks := [], [];
    var ts := g.start;
    while ts <= end && |times| < g.maxPoints
      invariant TimesOf(g, times, ks) && |ks| <= g.maxPoints && forall i | 0 <= i < |ks| :: ks[i] == i
      invariant ts == TimeOf(g, |ks|)
      decreases g.maxPoints - |times|
    {
      times, ks := times + [ts], ks + [|ks|];
      assert TimeOf(g, |ks|) == ts + g.interval by {
        assert |ks| * g.interval == (|ks| - 1) * g.interval + g.interval;
      }
      ts := ts + g.interval;
    }
  }

  lemma FilledCover(g: Grid, bs: seq<Bucket>, ks: seq<int>, end: int)
    requires GridOk(g) && Inside(bs, g.start, end)
    requires |ks| <= g.maxPoints && forall i | 0 <= i < |ks| :: ks[i] == i
    requires |ks| == g.maxPoints || TimeOf(g, |ks|) > end
    ensures Covers(g, bs, ks, g.maxPoints)
  {
    forall k | 0 <= k < g.maxPoints && InSlot(g, bs, k) != []
      ensures k in ks
    {
      SlotHasBucket(g, bs, k);
      var i :| 0 <= i < |bs| && SlotOf(g, bs[i]) == k;
      SlotInRange(g, bs[i]);
      if k >= |ks| {
        MulMonotone(|ks|, k, g.interval);
      }
      assert ks[k] == k;
    }
  }

  lemma {:induction false} SlotHasBucket(g: Grid, bs: seq<Bucket>, k: int)
    requires g.interval > 0 && InSlot(g, bs, k) != []
    ensures exists i :: 0 <= i < |bs| && SlotOf(g, bs[i]) == k
  {
    var n := |bs| - 1;
    if SlotOf(g, bs[n]) != k {
      SlotHasBucket(g, bs[..n], k);
      var i :| 0 <= i < n && SlotOf(g, bs[..n][i]) == k;
      assert SlotOf(g, bs[i]) == k;
    }
  }

  /** The slots behind sorted group times. */
  lemma {:induction false} SlotsBehind(g: Grid, bs: seq<Bucket>, grouped: map<int, Aggregate>, times: seq<int>) returns (ks: seq<int>)
    requires GridOk(g) && Grouped(g, bs, grouped) && Increasing(times) && forall t | t in times :: t in grouped
    ensures TimesOf(g, times, ks) && Increasing(ks)
  {
    ks := [];
    if times != [] {
      var n := |times| - 1;
      assert forall t | t in times[..n] :: t in times;
      ks := SlotsBehind(g, bs, grouped, times[..n]);
      assert times[n] in times && times[n] in grouped;
      var k :| times[n] == TimeOf(g, k);
      forall i | 0 <= i < n
        ensures ks[i] < k
      {
        assert times[..n][i] == times[i] < times[n];
        TimesAscend(g, ks[i], k);
      }
      ks := ks + [k];
    }
  }

  lemma SortedCover(g: Grid, bs: seq<Bucket>, grouped: map<int, Aggregate>, times: seq<int>, ks: seq<int>, end: int)
    requires GridOk(g) && Inside(bs, g.start, end) && Grouped(g, bs, grouped)
    requires TimesOf(g, times, ks) && Increasing(ks) && forall t :: t in times <==> t in grouped
    ensures Covers(g, bs, ks, g.maxPoints) && |ks| <= g.maxPoints
  {
    forall i | 0 <= i < |ks|
      ensures 0 <= ks[i] < g.maxPoints
    {
      assert times[i] in grouped;
      SlotHasBucket(g, bs, ks[i]);
      var j :| 0 <= j < |bs| && SlotOf(g, bs[j]) == ks[i];
      SlotInRange(g, bs[j]);
    }
    forall k | 0 <= k < g.maxPoints && InSlot(g, bs, k) != []
      ensures k in ks
    {
      assert TimeOf(g, k) in times;
      var i :| 0 <= i < |times| && times[i] == TimeOf(g, k);
      TimesDiffer(g, ks[i], k);
    }
    PigeonHole(ks, g.maxPoints);
  }

  lemma {:induction false} PigeonHole(ks: seq<int>, n: nat)
    requires Increasing(ks) && forall i | 0 <= i < |ks| :: 0 <= ks[i] < n
    ensures |ks| <= n
    decreases n
  {
    if ks != [] {
      PigeonHole(ks[..|ks| - 1], ks[|ks| - 1]);
    }
  }

  /** A series: the points are the groups of some slots, at most as many as asked for, that cover
      every bucket. */
  ghost predicate SeriesOk(g: Grid, bs: seq<Bucket>, algorithm: string, points: seq<Point>, ks: seq<int>)
    requires g.interval > 0
  {
    && |points| == |ks| <= g.maxPoints && Covers(g, bs, ks, g.maxPoints)
    && forall i | 0 <= i < |ks| ::
         points[i] == Point(TimeOf(g, ks[i]), Value(Group(g, bs, ks[i]), algorithm), Group(g, bs, ks[i]).count)
  }

  function PointTotal(points: seq<Point>): nat {
    if points == [] then 0 else PointTotal(points[..|points| - 1]) + points[|points| - 1].count
  }

  lemma {:induction false} PointTotalIsGroups(g: Grid, bs: seq<Bucket>, points: seq<Point>, ks: seq<int>)
    requires g.interval > 0 && |points| == |ks| && forall i | 0 <= i < |ks| :: points[i].count == Group(g, bs, ks[i]).count
    ensures PointTotal(points) == TotalCount(Groups(g, bs, ks))
  {
    hide Group;
    if points != [] {
      var n := |points| - 1;
      PointTotalIsGroups(g, bs, points[..n], ks[..n]);
      assert Groups(g, bs, ks)[..n] == Groups(g, bs, ks[..n]);
    }
  }

  /** The buckets that hold something. */
  function Present(bs: seq<Bucket>): seq<Bucket> {
    if bs == [] then []
    else Present(bs[..|bs| - 1]) + if bs[|bs| - 1].value.count > 0 then [bs[|bs| - 1]] else []
  }

  ghost predicate Within(bs: seq<Bucket>, start: int, end: int) {
    forall i | 0 <= i < |bs| :: start <= bs[i].ts <= end
  }

  lemma {:induction false} PresentInside(bs: seq<Bucket>, start: int, end: int)
    requires Within(bs, start, end)
    ensures Inside(Present(bs), start, end)
  {
    if bs != [] {
      PresentInside(bs[..|bs| - 1], start, end);
    }
  }

  lemma {:induction false} PresentAscends(bs: seq<Bucket>, latest: int)
    requires Ascending(bs) && forall i | 0 <= i < |bs| :: bs[i].ts <= latest
    ensures Ascending(Present(bs)) && forall i | 0 <= i < |Present(bs)| :: Present(bs)[i].ts <= latest
  {
    if bs != [] {
      PresentAscends(bs[..|bs| - 1], bs[|bs| - 1].ts);
    }
  }

  lemma {:induction false} PresentCounts(bs: seq<Bucket>)
    ensures TotalCount(Values(Present(bs))) == TotalCount(Values(bs))
  {
    if bs != [] {
      var n := |bs| - 1;
      PresentCounts(bs[..n]);
      assert Values(bs)[..n] == Values(bs[..n]);
      var rest := Present(bs[..n]);
      if bs[n].value.count > 0 {
        assert Values(rest + [bs[n]])[..|rest|] == Values(rest);
      } else {
        assert rest + [] == rest;
      }
    }
  }

  /** The counts of the points add up to the counts of all buckets, filled or not. */
  lemma PointsConserveCounts(g: Grid, bs: seq<Bucket>, end: int, algorithm: string, points: seq<Point>, ks: seq<int>)
    requires GridOk(g) && Ascending(bs) && Within(bs, g.start, end) && SeriesOk(g, Present(bs), algorithm, points, ks)
    ensures |points| <= g.maxPoints && PointTotal(points) == TotalCount(Values(bs))
  {
    hide Group, Covers, Value;
    PresentInside(bs, g.start, end);
    PresentAscends(bs, end);
    PresentCounts(bs);
    PointTotalIsGroups(g, Present(bs), points, ks);
    DownSamplingConserves(g, Present(bs), ks);
  }

  /** Skip empty buckets; refuse a legacy one that the algorithm cannot use. */
  method Readable(buckets: seq<Bucket>, algorithm: string) returns (refused: bool, bs: seq<Bucket>)
    ensures refused <==> algorithm !in AVERAGES && exists b | b in Present(buckets) :: b.legacy
    ensures !refused ==> bs == Present(buckets)
  {
    bs := [];
    for i := 0 to |buckets|
      invariant bs == Present(buckets[..i])
      invariant algorithm !in AVERAGES ==> forall b | b in bs :: !b.legacy
    {
      assert buckets[..i + 1][..i] == buckets[..i];
      var b := buckets[i];
      if b.value.count == 0 {
        continue;
      }
      bs := bs + [b];
      if b.legacy && algorithm !in AVERAGES {
        assert b in Present(buckets[..i + 1]);
        PresentPrefix(buckets, i + 1, b);
        return true, bs;
      }
    }
    assert buckets[..|buckets|] == buckets;
    refused := false;
  }

  lemma {:induction false} PresentPrefix(bs: seq<Bucket>, n: nat, b: Bucket)
    requires n <= |bs| && b in Present(bs[..n])
    ensures b in Present(bs)
    decreases |bs|
  {
    if n == |bs| {
      assert bs[..n] == bs;
    } else {
      assert bs[..|bs| - 1][..n] == bs[..n];
      PresentPrefix(bs[..|bs| - 1], n, b);
    }
  }

  /** The slots that are shown: all of them up to the end, or those that have buckets. */
  ghost predicate Chosen(g: Grid, bs: seq<Bucket>, ks: seq<int>, fill: bool, end: int)
    requires g.interval > 0
  {
    if fill then (forall i | 0 <= i < |ks| :: ks[i] == i) && (|ks| == g.maxPoints || TimeOf(g, |ks|) > end)
    else forall i | 0 <= i < |ks| :: InSlot(g, bs, ks[i]) != []
  }

  lemma ChosenFilled(g: Grid, bs: seq<Bucket>, ks: seq<int>, end: int)
    requires GridOk(g) && (forall i | 0 <= i < |ks| :: ks[i] == i) && (|ks| == g.maxPoints || TimeOf(g, |ks|) > end)
    ensures Chosen(g, bs, ks, true, end)
  {
  }

  lemma ChosenSorted(g: Grid, bs: seq<Bucket>, grouped: map<int, Aggregate>, times: seq<int>, ks: seq<int>, end: int)
    requires GridOk(g) && Grouped(g, bs, grouped) && TimesOf(g, times, ks) && forall t | t in times :: t in grouped
    ensures Chosen(g, bs, ks, false, end)
  {
    hide InSlot;
    forall i | 0 <= i < |ks|
      ensures InSlot(g, bs, ks[i]) != []
    {
      assert times[i] in times;
    }
  }

  /** Build the series of one metric.  `start` and `end` are nanoseconds. */
  method MakeSeries(buckets: seq<Bucket>, start: int, end: int, maxPoints: int, step: int, algorithm: string, fill: bool) returns (r: Result, ghost ks: seq<int>)
    requires maxPoints > 0 && step > 0 && start <= end
    requires Within(buckets, start / SECOND, end / SECOND)
    ensures r == Unsupported <==> algorithm !in AVERAGES && exists b | b in Present(buckets) :: b.legacy
    ensures r.Series? ==> r.interval == Interval(start, end, maxPoints, step) && r.interval > 0
    ensures r.Series? ==> SeriesOk(Grid(start / SECOND, r.interval, maxPoints), Present(buckets), algorithm, r.points, ks)
    ensures r.Series? ==> Chosen(Grid(start / SECOND, r.interval, maxPoints), Present(buckets), ks, fill, end / SECOND)
  {
    hide Grouped, Covers, Value, Group, Interval, Chosen;
    ks := [];
    IntervalCovers(start, end, maxPoints, step);
    var refused, bs := Readable(buckets, algorithm);
    if refused {
      return Unsupported, [];
    }
    PresentInside(buckets, start / SECOND, end / SECOND);
    var g := Grid(start / SECOND, Interval(start, end, maxPoints, step), maxPoints);
    var grouped := GroupBuckets(g, bs);
    var times;
    if fill {
      times, ks := FilledTimes(g, end / SECOND);
      FilledCover(g, bs, ks, end / SECOND);
      ChosenFilled(g, bs, ks, end / SECOND);
    } else {
      times := SortedKeys(grouped.Keys);
      ks := SlotsBehind(g, bs, grouped, times);
      SortedCover(g, bs, grouped, times, ks, end / SECOND);
      ChosenSorted(g, bs, grouped, times, ks, end / SECOND);
    }
    var points := [];
    for i := 0 to |times|
      invariant |points| == i
      invariant forall k | 0 <= k < i :: points[k] == Point(TimeOf(g, ks[k]), Value(Group(g, bs, ks[k]), algorithm), Group(g, bs, ks[k]).count)
    {
      GroupedAt(g, bs, grouped, ks[i]);
      var a := if times[i] in grouped then grouped[times[i]] else NOTHING;
      points := points + [Point(times[i], Value(a, algorithm), a.count)];
    }
    r := Series(g.interval, points);
  }

  lemma GroupedAt(g: Grid, bs: seq<Bucket>, grouped: map<int, Aggregate>, k: int)
    requires GridOk(g) && Grouped(g, bs, grouped)
    ensures (if TimeOf(g, k) in grouped then grouped[TimeOf(g, k)] else NOTHING) == Group(g, bs, k)
  {
  }
}
