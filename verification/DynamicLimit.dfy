/** The dynamic speed limiter: a sliding window over traffic reports, pruned in place. */
module DynamicLimit {
  import opened Collections

  /** Bytes accumulated over the `win` seconds that ended at `end`. */
  datatype Sample = Sample(end: int, win: int, bytes: int)

  datatype Traffic = Traffic(user: int, up: int, down: int)

  type Table = map<int, seq<Sample>>

  // ----- the rate ----------------------------------------------------------------------------

  function Later(a: int, b: int): int { if a < b then b else a }

  /** The seconds of a report's window that fall after `from`. */
  function Overlap(s: Sample, from: int): int { s.end - Later(s.end - s.win, from) }

  function BitsOf(s: Sample, from: int): real {
    if s.end <= from || Overlap(s, from) <= 0 || s.win <= 0 then 0.0
    else s.bytes as real * 8.0 * (Overlap(s, from) as real / s.win as real)
  }

  /** The traffic that falls inside the trigger window. */
  function Bits(list: seq<Sample>, from: int): real {
    if list == [] then 0.0 else Bits(list[..|list| - 1], from) + BitsOf(list[|list| - 1], from)
  }

  /** The reports not entirely before the window. */
  function Keep(list: seq<Sample>, from: int): seq<Sample> {
    if list == [] then []
    else
      var rest := Keep(list[..|list| - 1], from);
      if list[|list| - 1].end > from then rest + [list[|list| - 1]] else rest
  }

  /** Conversion to a whole number truncates toward zero. */
  function Truncate(x: real): int { if x >= 0.0 then x.Floor else -((-x).Floor) }

  function Mbps(list: seq<Sample>, at: int, trigger: int): int
    requires trigger > 0
  {
    Truncate(Bits(list, at - trigger) / trigger as real / 1000000.0)
  }

  // ----- pruning loses nothing ------------------------------------------------------------------

  lemma {:induction false} KeepConcat(a: seq<Sample>, b: seq<Sample>, from: int)
    ensures Keep(a + b, from) == Keep(a, from) + Keep(b, from)
  {
    if b == [] {
      assert a + b == a;
    } else {
      assert (a + b)[..|a + b| - 1] == a + b[..|b| - 1];
      KeepConcat(a, b[..|b| - 1], from);
    }
  }

  /** What an earlier window discarded, a later one discards too. */
  lemma {:induction false} KeepTwice(list: seq<Sample>, from: int, later: int)
    requires from <= later
    ensures Keep(Keep(list, from), later) == Keep(list, later)
  {
    if list != [] {
      var n := |list| - 1;
      KeepTwice(list[..n], from, later);
      var rest := Keep(list[..n], from);
      if list[n].end > from {
        assert (rest + [list[n]])[..|rest|] == rest;
      }
    }
  }

  /** Discarded reports carry no traffic of the window. */
  lemma {:induction false} KeepBits(list: seq<Sample>, from: int)
    ensures Bits(Keep(list, from), from) == Bits(list, from)
  {
    if list != [] {
      var n := |list| - 1;
      KeepBits(list[..n], from);
      var rest := Keep(list[..n], from);
      assert (rest + [list[n]])[..|rest|] == rest;
    }
  }

  lemma KeepAfterAppend(list: seq<Sample>, more: seq<Sample>, from: int, later: int)
    requires from <= later
    ensures Keep(Keep(list, from) + more, later) == Keep(list + more, later)
  {
    KeepConcat(Keep(list, from), more, later);
    KeepTwice(list, from, later);
    KeepConcat(list, more, later);
  }

  // ----- a backlog is not a spike -----------------------------------------------------------------

  /** Reports of one stream: in order, with windows that do not overlap. */
  ghost predicate Disjoint(list: seq<Sample>) {
    && (forall i | 0 <= i < |list| :: list[i].win > 0)
    && (forall i, j | 0 <= i < j < |list| :: list[i].end <= list[j].end - list[j].win)
  }

  /** A report's own average is at most `rate` bits a second. */
  ghost predicate Slow(s: Sample, rate: real) { s.bytes as real * 8.0 <= rate * s.win as real }

  ghost predicate AtMost(list: seq<Sample>, rate: real) {
    forall i | 0 <= i < |list| :: Slow(list[i], rate)
  }

  /** The traffic of a steady rate over some seconds. */
  function Steady(rate: real, seconds: int): real { rate * seconds as real }

  lemma BitsOfBound(s: Sample, from: int, rate: real)
    requires s.win > 0 && rate >= 0.0 && Slow(s, rate)
    ensures BitsOf(s, from) <= if s.end <= from then 0.0 else Steady(rate, Overlap(s, from))
  {
    var o, w := Overlap(s, from), s.win as real;
    if s.end > from && o > 0 {
      var share := o as real / w;
      calc {
        s.bytes as real * 8.0 * share;
        <= { ScaleUp(s.bytes as real * 8.0, rate * w, share); }
        rate * w * share;
        == { assert w * share == o as real; MulAssoc(rate, w, share); }
        rate * o as real;
      }
    }
  }

  lemma ScaleUp(a: real, b: real, c: real)
    requires a <= b && c >= 0.0
    ensures a * c <= b * c
  {
  }

  /** Two parts of a window weigh no more than the window. */
  lemma Side(rate: real, a: int, b: int, whole: int)
    requires rate >= 0.0 && a + b <= whole
    ensures Steady(rate, a) + Steady(rate, b) <= Steady(rate, whole)
  {
    var x, y, z := a as real, b as real, whole as real;
    assert x + y <= z;
    ScaleUp(x + y, z, rate);
    assert rate * x + rate * y == (x + y) * rate;
  }

  lemma SteadyZero(rate: real)
    ensures Steady(rate, 0) == 0.0
  {
  }

  lemma MulAssoc(a: real, b: real, c: real)
    ensures a * b * c == a * (b * c)
  {
  }

  /** A stream's traffic in the window is at most its rate times the part of the window it covers. */
  lemma {:induction false} StreamBound(list: seq<Sample>, from: int, rate: real)
    requires Disjoint(list) && AtMost(list, rate) && rate >= 0.0
    ensures Bits(list, from) <= if list == [] || list[|list| - 1].end <= from then 0.0 else Steady(rate, list[|list| - 1].end - from)
  {
    hide Steady, BitsOf, Slow;
    if list != [] {
      var n := |list| - 1;
      var s, rest := list[n], list[..n];
      StreamBound(rest, from, rate);
      BitsOfBound(s, from, rate);
      if n > 0 {
        assert rest[n - 1].end <= s.end - s.win;
      }
      if s.end > from {
        var covered := if n == 0 || rest[n - 1].end <= from then 0 else rest[n - 1].end - from;
        SteadyZero(rate);
        Side(rate, covered, Overlap(s, from), s.end - from);
      }
    }
  }

  /** If the reports of one stream never average more than `rate`, neither does the trigger
      window, however long a backlog they cover. */
  lemma BacklogIsNoSpike(list: seq<Sample>, at: int, trigger: int, rate: real)
    requires Disjoint(list) && AtMost(list, rate) && rate >= 0.0 && trigger > 0
    requires forall i | 0 <= i < |list| :: list[i].end <= at
    ensures Bits(list, at - trigger) <= Steady(rate, trigger)
  {
    hide Steady, Bits;
    StreamBound(list, at - trigger, rate);
    SteadyZero(rate);
    Side(rate, 0, 0, trigger);
    if list != [] {
      Side(rate, list[|list| - 1].end - (at - trigger), 0, trigger);
    }
  }

  /** A report together with the stream (the node) it came from. */
  datatype Tagged = Tagged(stream: nat, sample: Sample)

  function Samples(list: seq<Tagged>): (r: seq<Sample>)
    ensures |r| == |list|
  {
    seq(|list|, i requires 0 <= i < |list| => list[i].sample)
  }

  function OfStream(list: seq<Tagged>, k: nat): seq<Sample> {
    if list == [] then []
    else
      var rest := OfStream(list[..|list| - 1], k);
      if list[|list| - 1].stream == k then rest + [list[|list| - 1].sample] else rest
  }

  function SumOverStreams(list: seq<Tagged>, from: int, k: nat): real {
    if k == 0 then 0.0 else SumOverStreams(list, from, k - 1) + Bits(OfStream(list, k - 1), from)
  }

  lemma {:induction false} OneMoreReport(list: seq<Tagged>, t: Tagged, from: int, k: nat)
    ensures SumOverStreams(list + [t], from, k) == SumOverStreams(list, from, k) + (if t.stream < k then BitsOf(t.sample, from) else 0.0)
  {
    if k > 0 {
      OneMoreReport(list, t, from, k - 1);
      assert (list + [t])[..|list|] == list;
      var before := OfStream(list, k - 1);
      if t.stream == k - 1 {
        assert (before + [t.sample])[..|before|] == before;
      }
    }
  }

  /** The window's traffic is the sum over the streams. */
  lemma {:induction false} BitsAreSummed(list: seq<Tagged>, from: int, k: nat)
    requires forall i | 0 <= i < |list| :: list[i].stream < k
    ensures Bits(Samples(list), from) == SumOverStreams(list, from, k)
  {
    if list == [] {
      NoReports(from, k);
    } else {
      var n := |list| - 1;
      BitsAreSummed(list[..n], from, k);
      OneMoreReport(list[..n], list[n], from, k);
      assert list[..n] + [list[n]] == list;
      assert Samples(list)[..n] == Samples(list[..n]);
    }
  }

  lemma {:induction false} NoReports(from: int, k: nat)
    ensures SumOverStreams([], from, k) == 0.0
  {
    if k > 0 {
      NoReports(from, k - 1);
    }
  }

  lemma {:induction false} StreamsBound(list: seq<Tagged>, at: int, trigger: int, rate: real, k: nat)
    requires rate >= 0.0 && trigger > 0
    requires forall s: nat | s < k :: Disjoint(OfStream(list, s)) && AtMost(OfStream(list, s), rate)
    requires forall i | 0 <= i < |list| :: list[i].sample.end <= at
    ensures SumOverStreams(list, at - trigger, k) <= Copies(k, Steady(rate, trigger))
  {
    hide Copies, Steady, Bits, Disjoint, AtMost, OfStream;
    if k == 0 {
      assert Copies(0, Steady(rate, trigger)) >= 0.0 by {
        NoCopies(Steady(rate, trigger));
      }
    } else {
      StreamsBound(list, at, trigger, rate, k - 1);
      EndsBefore(list, k - 1, at);
      BacklogIsNoSpike(OfStream(list, k - 1), at, trigger, rate);
      OneMore(k, Steady(rate, trigger));
    }
  }

  function Copies(k: nat, x: real): real { k as real * x }

  lemma NoCopies(x: real)
    ensures Copies(0, x) == 0.0
  {
  }

  lemma OneMore(k: nat, x: real)
    requires k > 0
    ensures Copies(k - 1, x) + x == Copies(k, x)
  {
    assert k as real == (k - 1) as real + 1.0;
  }

  lemma {:induction false} EndsBefore(list: seq<Tagged>, k: nat, at: int)
    requires forall i | 0 <= i < |list| :: list[i].sample.end <= at
    ensures forall i | 0 <= i < |OfStream(list, k)| :: OfStream(list, k)[i].end <= at
  {
    if list != [] {
      EndsBefore(list[..|list| - 1], k, at);
    }
  }

  /** With `k` streams the trigger window averages at most `k` times the rate of one. */
  lemma StreamsAreNoSpike(list: seq<Tagged>, at: int, trigger: int, rate: real, k: nat)
    requires rate >= 0.0 && trigger > 0
    requires forall i | 0 <= i < |list| :: list[i].stream < k && list[i].sample.end <= at
    requires forall s: nat | s < k :: Disjoint(OfStream(list, s)) && AtMost(OfStream(list, s), rate)
    ensures Bits(Samples(list), at - trigger) <= Copies(k, Steady(rate, trigger))
    ensures Mbps(Samples(list), at, trigger) <= Truncate(k as real * rate / 1000000.0)
  {
    hide Bits, Samples, SumOverStreams, Truncate, Disjoint, AtMost, OfStream;
    BitsAreSummed(list, at - trigger, k);
    StreamsBound(list, at, trigger, rate, k);
    var total := Bits(Samples(list), at - trigger);
    DivideDown(total, k as real, rate, trigger as real);
    TruncateMonotone(total / trigger as real / 1000000.0, k as real * rate / 1000000.0);
  }

  lemma DivideDown(total: real, k: real, rate: real, t: real)
    requires t > 0.0 && total <= k * (rate * t)
    ensures total / t / 1000000.0 <= k * rate / 1000000.0
  {
    MulAssoc(k, rate, t);
    var q := total / t;
    assert q * t == total;
    Cancel(q, k * rate, t);
  }

  lemma Cancel(q: real, a: real, t: real)
    requires t > 0.0 && q * t <= a * t
    ensures q <= a
  {
  }

  lemma TruncateMonotone(x: real, y: real)
    requires x <= y
    ensures Truncate(x) <= Truncate(y)
  {
  }

  // ----- sustained traffic is found --------------------------------------------------------------

  /** Reports that follow one another without a gap, from the beginning of the window or before it
      up to now. */
  ghost predicate Tiles(list: seq<Sample>, from: int, at: int) {
    && list != [] && list[0].end - list[0].win <= from && list[|list| - 1].end == at
    && (forall i | 0 <= i < |list| :: list[i].win > 0)
    && (forall i | 0 < i < |list| :: Follows(list[i - 1], list[i]))
  }

  predicate Follows(a: Sample, b: Sample) { a.end == b.end - b.win }

  /** A report's own average is at least `rate` bits a second. */
  ghost predicate Heavy(s: Sample, rate: real) { rate * s.win as real <= s.bytes as real * 8.0 }

  ghost predicate AtLeast(list: seq<Sample>, rate: real) {
    forall i | 0 <= i < |list| :: Heavy(list[i], rate)
  }

  lemma BitsOfFloor(s: Sample, from: int, rate: real)
    requires s.win > 0 && rate >= 0.0 && Heavy(s, rate)
    ensures BitsOf(s, from) >= if s.end <= from then 0.0 else Steady(rate, Overlap(s, from))
  {
    var o, w := Overlap(s, from), s.win as real;
    if s.end > from {
      var share := o as real / w;
      calc {
        s.bytes as real * 8.0 * share;
        >= { ScaleUp(rate * w, s.bytes as real * 8.0, share); }
        rate * w * share;
        == { assert w * share == o as real; MulAssoc(rate, w, share); }
        rate * o as real;
      }
    }
  }

  lemma Joined(rate: real, a: int, b: int)
    ensures Steady(rate, a) + Steady(rate, b) == Steady(rate, a + b)
  {
    var x, y := a as real, b as real;
    assert rate * x + rate * y == rate * (x + y);
  }

  lemma {:induction false} StreamFloor(list: seq<Sample>, from: int, at: int, rate: real, n: nat)
    requires Tiles(list, from, at) && AtLeast(list, rate) && rate >= 0.0 && 1 <= n <= |list|
    ensures Bits(list[..n], from) >= if list[n - 1].end <= from then 0.0 else Steady(rate, list[n - 1].end - from)
  {
    hide Steady, BitsOf, Heavy;
    var s := list[n - 1];
    assert list[..n][..n - 1] == list[..n - 1];
    BitsOfFloor(s, from, rate);
    SteadyZero(rate);
    if n > 1 {
      StreamFloor(list, from, at, rate, n - 1);
      assert Follows(list[n - 2], s);
      Joined(rate, list[n - 2].end - from, s.win);
    } else {
      assert list[..0] == [];
    }
  }

  lemma {:induction false} NoLess(list: seq<Sample>, from: int)
    requires forall i | 0 <= i < |list| :: list[i].bytes >= 0
    ensures Bits(list, from) >= 0.0
  {
    if list != [] {
      NoLess(list[..|list| - 1], from);
      NoLessOf(list[|list| - 1], from);
    }
  }

  lemma NoLessOf(s: Sample, from: int)
    requires s.bytes >= 0
    ensures BitsOf(s, from) >= 0.0
  {
    if s.end > from && Overlap(s, from) > 0 && s.win > 0 {
      var share := Overlap(s, from) as real / s.win as real;
      assert share >= 0.0;
      ScaleUp(0.0, s.bytes as real * 8.0, share);
    }
  }

  lemma {:induction false} BytesOfStream(list: seq<Tagged>, k: nat)
    requires forall i | 0 <= i < |list| :: list[i].sample.bytes >= 0
    ensures forall i | 0 <= i < |OfStream(list, k)| :: OfStream(list, k)[i].bytes >= 0
  {
    if list != [] {
      BytesOfStream(list[..|list| - 1], k);
    }
  }

  /** One stream is part of the whole. */
  lemma {:induction false} StreamIsPart(list: seq<Tagged>, from: int, k: nat, s: nat)
    requires forall i | 0 <= i < |list| :: list[i].sample.bytes >= 0
    ensures SumOverStreams(list, from, k) >= if s < k then Bits(OfStream(list, s), from) else 0.0
  {
    hide Bits, OfStream;
    if k > 0 {
      StreamIsPart(list, from, k - 1, s);
      BytesOfStream(list, k - 1);
      NoLess(OfStream(list, k - 1), from);
    }
  }

  /** Some stream of the reports covers the window without a gap and averages the threshold. */
  ghost predicate Busy(history: seq<Sample>, at: int, trigger: int, threshold: int) {
    exists list, k: nat, s: nat :: Loud(list, at, trigger, k, s, threshold) && Samples(list) == history
  }

  ghost predicate Loud(list: seq<Tagged>, at: int, trigger: int, k: nat, s: nat, threshold: int) {
    && s < k && (forall i | 0 <= i < |list| :: list[i].stream < k && list[i].sample.bytes >= 0)
    && Tiles(OfStream(list, s), at - trigger, at) && AtLeast(OfStream(list, s), threshold as real * 1000000.0)
  }

  lemma BusyIsFound(history: seq<Sample>, at: int, trigger: int, threshold: int)
    requires trigger > 0 && threshold > 0 && Busy(history, at, trigger, threshold)
    ensures Mbps(history, at, trigger) >= threshold
  {
    hide Truncate, Bits, OfStream, Samples, SumOverStreams, Steady, AtLeast;
    var list, k: nat, s: nat :| Loud(list, at, trigger, k, s, threshold) && Samples(list) == history;
    var from, rate, one := at - trigger, threshold as real * 1000000.0, OfStream(list, s);
    StreamFloor(one, from, at, rate, |one|);
    assert one[..|one|] == one;
    StreamIsPart(list, from, k, s);
    BitsAreSummed(list, from, k);
    RateAtLeast(Bits(history, from), threshold, trigger);
  }

  lemma RateAtLeast(bits: real, threshold: int, trigger: int)
    requires trigger > 0 && threshold > 0 && bits >= Steady(threshold as real * 1000000.0, trigger)
    ensures Truncate(bits / trigger as real / 1000000.0) >= threshold
  {
    var t, q := trigger as real, bits / trigger as real;
    assert q * t == bits;
    Cancel(threshold as real * 1000000.0, q, t);
    TruncateMonotone(threshold as real, q / 1000000.0);
  }

  // ----- modest traffic is not ---------------------------------------------------------------------

  /** The reports come from `k` streams of disjoint windows, none averaging more than `rate`, and
      all streams together stay below the threshold. */
  ghost predicate Modest(list: seq<Tagged>, at: int, rate: real, k: nat, threshold: int) {
    && rate >= 0.0 && k as real * rate < threshold as real * 1000000.0
    && (forall i | 0 <= i < |list| :: list[i].stream < k && list[i].sample.end <= at)
    && (forall s: nat | s < k :: Disjoint(OfStream(list, s)) && AtMost(OfStream(list, s), rate))
  }

  /** Some reading of the reports as streams is modest. */
  ghost predicate Quiet(history: seq<Sample>, at: int, threshold: int) {
    exists list, rate, k: nat :: Modest(list, at, rate, k, threshold) && Samples(list) == history
  }

  lemma QuietIsBelow(history: seq<Sample>, at: int, trigger: int, threshold: int)
    requires trigger > 0 && Quiet(history, at, threshold)
    ensures Mbps(history, at, trigger) < threshold
  {
    hide Mbps, Truncate, Disjoint, AtMost, OfStream, Samples;
    var list, rate, k: nat :| Modest(list, at, rate, k, threshold) && Samples(list) == history;
    StreamsAreNoSpike(list, at, trigger, rate, k);
    var x := k as real * rate;
    assert x >= 0.0;
    TruncateBelow(x / 1000000.0, threshold);
  }

  lemma TruncateBelow(x: real, n: int)
    requires 0.0 <= x < n as real
    ensures Truncate(x) < n
  {
  }

  // ----- the limiter -----------------------------------------------------------------------------------

  function Get(t: Table, user: int): seq<Sample> { if user in t then t[user] else [] }

  /** The seconds a report covers: as it says, or the report interval, or a minute. */
  function Window(window: int, push: int): (win: int)
    ensures win > 0
  {
    if window > 0 then window else if push > 0 then push else 60
  }

  predicate Counts(t: Traffic) { t.up > 0 || t.down > 0 }

  /** What one report adds to the list of a user. */
  function Added(t: Traffic, user: int, win: int, at: int): seq<Sample> {
    if t.user == user && Counts(t) then [Sample(at, win, t.up + t.down)] else []
  }

  /** The reports of one batch that belong to a user. */
  function Of(batch: seq<Traffic>, user: int, win: int, at: int): seq<Sample> {
    if batch == [] then [] else Of(batch[..|batch| - 1], user, win, at) + Added(batch[|batch| - 1], user, win, at)
  }

  lemma OfOneMore(batch: seq<Traffic>, i: nat, user: int, win: int, at: int)
    requires i < |batch|
    ensures Of(batch[..i + 1], user, win, at) == Of(batch[..i], user, win, at) + Added(batch[i], user, win, at)
  {
    assert batch[..i + 1][..i] == batch[..i];
  }

  /** Every list is the one before, followed by what the reports added. */
  ghost predicate Extends(before: Table, after: Table, batch: seq<Traffic>, win: int, at: int) {
    forall u :: Get(after, u) == Get(before, u) + Of(batch, u, win, at)
  }

  lemma ExtendsNothing(t: Table, win: int, at: int)
    ensures Extends(t, t, [], win, at)
  {
  }

  lemma ExtendsOneMore(before: Table, after: Table, batch: seq<Traffic>, i: nat, win: int, at: int)
    requires i < |batch| && Extends(before, after, batch[..i], win, at)
    ensures var t := batch[i];
      Extends(before, if Counts(t) then after[t.user := Get(after, t.user) + Added(t, t.user, win, at)] else after,
              batch[..i + 1], win, at)
  {
    hide Of;
    forall u {
      OfOneMore(batch, i, u, win, at);
    }
  }

  lemma NothingIsSlow(from: int, trigger: int)
    requires trigger > 0
    ensures Mbps([], from + trigger, trigger) == 0 && Keep([], from) == []
  {
  }

  lemma KeptRate(list: seq<Sample>, from: int, trigger: int)
    requires trigger > 0
    ensures Keep(list, from) == [] ==> Mbps(list, from + trigger, trigger) == 0
  {
    KeepBits(list, from);
    if Keep(list, from) == [] {
      assert Bits(list, from) == 0.0;
    }
  }

  /** The history with one more batch. */
  ghost function Recorded(history: int -> seq<Sample>, batch: seq<Traffic>, win: int, at: int): int -> seq<Sample> {
    (u: int) => history(u) + Of(batch, u, win, at)
  }

  /** With times that do not run backwards, the pruned lists and the whole history agree on what
      the window holds and on its rate. */
  lemma SameWindow(history: int -> seq<Sample>, full: Table, batch: seq<Traffic>, win: int, last: int, at: int, trigger: int)
    requires trigger > 0 && last <= at
    requires forall u :: Get(full, u) == Keep(history(u), last - trigger) + Of(batch, u, win, at)
    ensures forall u :: Keep(Get(full, u), at - trigger) == Keep(Recorded(history, batch, win, at)(u), at - trigger)
    ensures forall u :: Mbps(Get(full, u), at, trigger) == Mbps(Recorded(history, batch, win, at)(u), at, trigger)
  {
    hide Keep, Bits, Of, Truncate;
    var now := Recorded(history, batch, win, at);
    var from := at - trigger;
    forall u
      ensures Keep(Get(full, u), from) == Keep(now(u), from) && Mbps(Get(full, u), at, trigger) == Mbps(now(u), at, trigger)
    {
      KeepAfterAppend(history(u), Of(batch, u, win, at), last - trigger, from);
      KeepBits(Get(full, u), from);
      KeepBits(now(u), from);
    }
  }

  /** The sweep so far: the users still to do are as they were, the others compacted and judged. */
  ghost predicate Swept(full: Table, recent: Table, over: map<int, int>, todo: set<int>, from: int, trigger: int, threshold: int, exempt: set<int>)
    requires trigger > 0
  {
    && todo <= full.Keys && todo <= recent.Keys && recent.Keys <= full.Keys
    && (forall u | u in todo :: recent[u] == full[u])
    && (forall u | u !in todo :: Get(recent, u) == Keep(Get(full, u), from))
    && (forall u | u in recent && u !in todo :: recent[u] != [])
    && (forall u :: u in over <==> u in full && u !in todo && Mbps(full[u], from + trigger, trigger) >= threshold && u !in exempt)
    && (forall u | u in over :: over[u] == Mbps(full[u], from + trigger, trigger))
  }

  lemma SweepStarts(full: Table, from: int, trigger: int, threshold: int, exempt: set<int>)
    requires trigger > 0
    ensures Swept(full, full, map[], full.Keys, from, trigger, threshold, exempt)
  {
  }

  /** One user's list compacted and judged. */
  lemma SweptOne(full: Table, recent: Table, over: map<int, int>, todo: set<int>, u: int, from: int, trigger: int, threshold: int, exempt: set<int>)
    requires trigger > 0 && threshold > 0 && u in todo && Swept(full, recent, over, todo, from, trigger, threshold, exempt)
    ensures u in recent
    ensures var kept, mbps := Keep(recent[u], from), Truncate(Bits(recent[u], from) / trigger as real / 1000000.0);
      if kept == [] then Swept(full, recent - {u}, over, todo - {u}, from, trigger, threshold, exempt)
      else Swept(full, recent[u := kept], if mbps >= threshold && u !in exempt then over[u := mbps] else over, todo - {u}, from, trigger, threshold, exempt)
  {
    hide Keep, Bits, Truncate;
    KeptRate(recent[u], from, trigger);
  }

  lemma SweepEnds(full: Table, recent: Table, over: map<int, int>, from: int, trigger: int, threshold: int, exempt: set<int>)
    requires trigger > 0 && threshold > 0 && Swept(full, recent, over, {}, from, trigger, threshold, exempt)
    ensures forall u :: Get(recent, u) == Keep(Get(full, u), from)
    ensures forall u | u in recent :: recent[u] != []
    ensures forall u :: u in over <==> Mbps(Get(full, u), from + trigger, trigger) >= threshold && u !in exempt
    ensures forall u | u in over :: over[u] == Mbps(Get(full, u), from + trigger, trigger)
  {
    hide Keep, Bits, Truncate;
    NothingIsSlow(from, trigger);
  }

  /** Quiet users are not among those found, and busy ones are. */
  lemma RightlyOver(history: int -> seq<Sample>, over: map<int, int>, at: int, trigger: int, threshold: int, exempt: set<int>)
    requires trigger > 0 && threshold > 0
    requires forall u :: u in over <==> Mbps(history(u), at, trigger) >= threshold && u !in exempt
    ensures forall u | Quiet(history(u), at, threshold) :: u !in over
    ensures forall u | Busy(history(u), at, trigger, threshold) && u !in exempt :: u in over
  {
    hide Mbps, Quiet, Busy;
    forall u | Quiet(history(u), at, threshold)
      ensures u !in over
    {
      QuietIsBelow(history(u), at, trigger, threshold);
    }
    forall u | Busy(history(u), at, trigger, threshold) && u !in exempt
      ensures u in over
    {
      BusyIsFound(history(u), at, trigger, threshold);
    }
  }

  class DynLimit {
    const trigger: int
    var recent: Table
    /** Every report recorded so far, and the time of the latest one. */
    ghost var history: int -> seq<Sample>
    ghost var last: int

    /** The pruned lists are the part of the history inside the latest window. */
    ghost predicate Valid()
      reads this
    {
      trigger > 0 && (forall u :: Get(recent, u) == Keep(history(u), last - trigger)) && (forall u | u in recent :: recent[u] != [])
    }

    constructor (seconds: int)
      requires seconds > 0
      ensures Valid() && trigger == seconds && recent == map[] && forall u :: history(u) == []
    {
      trigger, recent, history, last := seconds, map[], (u: int) => [], 0;
    }

    /** Record one batch of reports. */
    method Append(batch: seq<Traffic>, win: int, at: int)
      modifies this`recent
      ensures Extends(old(recent), recent, batch, win, at)
      ensures forall u | u in recent :: recent[u] != [] || u in old(recent)
    {
      hide Extends, Of;
      assert Extends(recent, recent, batch[..0], win, at) by { ExtendsNothing(recent, win, at); }
      for i := 0 to |batch|
        invariant Extends(old(recent), recent, batch[..i], win, at)
        invariant forall u | u in recent :: recent[u] != [] || u in old(recent)
      {
        ExtendsOneMore(old(recent), recent, batch, i, win, at);
        var t := batch[i];
        if t.up <= 0 && t.down <= 0 {
          continue;
        }
        recent := recent[t.user := Get(recent, t.user) + [Sample(at, win, t.up + t.down)]];
      }
      assert batch[..|batch|] == batch;
    }

    /** Compact one list in place and add up the traffic inside the window. */
    method Compact(list: seq<Sample>, from: int) returns (kept: seq<Sample>, bits: real)
      ensures kept == Keep(list, from) && bits == Bits(list, from)
    {
      kept, bits := [], 0.0;
      for i := 0 to |list|
        invariant kept == Keep(list[..i], from) && bits == Bits(list[..i], from)
      {
        assert list[..i + 1][..i] == list[..i];
        var s := list[i];
        if s.end > from {
          kept := kept + [s];
          var lo := s.end - s.win;
          if lo < from {
            lo := from;
          }
          var overlap := s.end - lo;
          if overlap > 0 && s.win > 0 {
            bits := bits + s.bytes as real * 8.0 * (overlap as real / s.win as real);
          }
        }
      }
      assert list[..|list|] == list;
    }

    /** Observe one batch.  The users found over the limit are exactly those whose whole recorded
        history, pruned or not, averages at least the threshold over the trigger window. */
    method Observe(batch: seq<Traffic>, window: int, push: int, at: int, threshold: int, exempt: set<int>, active: bool) returns (over: map<int, int>)
      requires Valid() && threshold > 0 && last <= at
      modifies this
      ensures Valid()
      ensures !active ==> unchanged(this) && over == map[]
      ensures active ==> last == at && forall u :: history(u) == old(history)(u) + Of(batch, u, Window(window, push), at)
      ensures active ==> forall u :: u in over <==> Mbps(history(u), at, trigger) >= threshold && u !in exempt
      ensures active ==> forall u | u in over :: over[u] == Mbps(history(u), at, trigger)
      ensures forall u | Quiet(history(u), at, threshold) :: u !in over
      ensures active ==> forall u | Busy(history(u), at, trigger, threshold) && u !in exempt :: u in over
    {
      hide Keep, Of, Mbps, Quiet, Busy;
      over := map[];
      if !active {
        return;
      }
      var win := Window(window, push);
      ghost var was, when := history, last;
      Append(batch, win, at);
      ghost var full := recent;
      SameWindow(was, full, batch, win, when, at, trigger);
      over := Sweep(at - trigger, threshold, exempt);
      history, last := Recorded(was, batch, win, at), at;
      RightlyOver(history, over, at, trigger, threshold, exempt);
    }

    /** The loop over all users. */
    method Sweep(from: int, threshold: int, exempt: set<int>) returns (over: map<int, int>)
      requires trigger > 0 && threshold > 0
      modifies this`recent
      ensures forall u :: Get(recent, u) == Keep(Get(old(recent), u), from)
      ensures forall u | u in recent :: recent[u] != []
      ensures forall u :: u in over <==> Mbps(Get(old(recent), u), from + trigger, trigger) >= threshold && u !in exempt
      ensures forall u | u in over :: over[u] == Mbps(Get(old(recent), u), from + trigger, trigger)
    {
      hide Keep, Bits, Truncate, Swept;
      over := map[];
      ghost var full := recent;
      var todo := recent.Keys;
      SweepStarts(full, from, trigger, threshold, exempt);
      while todo != {}
        invariant todo <= recent.Keys && Swept(full, recent, over, todo, from, trigger, threshold, exempt)
        decreases |todo|
      {
        var u := Pick(todo);
        SweptOne(full, recent, over, todo, u, from, trigger, threshold, exempt);
        var kept, bits := Compact(recent[u], from);
        if |kept| == 0 {
          recent := recent - {u};
        } else {
          recent := recent[u := kept];
          var mbps := Truncate(bits / trigger as real / 1000000.0);
          if mbps >= threshold && u !in exempt {
            over := over[u := mbps];
          }
        }
        todo := todo - {u};
      }
      SweepEnds(full, recent, over, from, trigger, threshold, exempt);
    }
  }
}
