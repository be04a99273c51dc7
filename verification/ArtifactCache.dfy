/** The bounded artifact cache: single-flight downloads, and pruning before each publication. */
module ArtifactCache {
  import opened Collections

  const MAX_FILES := 256
  const MAX_BYTES := 2147483648
  const MAX_ARTIFACT := 268435456
  const CACHE_AGE := 604800

  /** A cached artifact file: size in bytes and modification time. */
  datatype File = File(size: nat, at: int)

  type Directory = map<string, File>

  datatype Item = Item(path: string, size: nat, at: int)

  // ----- lists of items ---------------------------------------------------------------------------

  function Total(items: seq<Item>): nat {
    if items == [] then 0 else items[0].size + Total(items[1..])
  }

  ghost predicate OldestFirst(items: seq<Item>) {
    forall i, j | 0 <= i < j < |items| :: items[i].at <= items[j].at
  }

  ghost predicate DistinctPaths(items: seq<Item>) {
    forall i, j | 0 <= i < j < |items| :: items[i].path != items[j].path
  }

  function Paths(items: seq<Item>): set<string> { set i | 0 <= i < |items| :: items[i].path }

  /** The items are exactly the files of the directory. */
  ghost predicate Lists(items: seq<Item>, d: Directory) {
    && DistinctPaths(items)
    && (forall i | 0 <= i < |items| :: items[i].path in d && d[items[i].path] == File(items[i].size, items[i].at))
    && (forall p | p in d :: exists i :: 0 <= i < |items| && items[i].path == p)
  }

  lemma {:induction false} ListedCount(items: seq<Item>, d: Directory)
    requires Lists(items, d)
    ensures |items| == |d|
  {
    if items == [] {
      assert forall p :: p !in d;
      assert d == map[];
    } else {
      var p := items[0].path;
      ListsWithoutFirst(items, d);
      ListedCount(items[1..], d - {p});
      assert d.Keys == (d - {p}).Keys + {p};
    }
  }

  lemma ListsWithoutFirst(items: seq<Item>, d: Directory)
    requires Lists(items, d) && items != []
    ensures items[0].path in d && Lists(items[1..], d - {items[0].path})
  {
    var rest, left := items[1..], d - {items[0].path};
    assert forall i | 0 <= i < |rest| :: rest[i] == items[i + 1];
    forall p | p in left
      ensures exists i :: 0 <= i < |rest| && rest[i].path == p
    {
      var i :| 0 <= i < |items| && items[i].path == p;
      assert rest[i - 1].path == p;
    }
  }

  /** The bytes a directory holds. */
  ghost predicate Holds(d: Directory, bytes: nat) { exists items :: Lists(items, d) && Total(items) == bytes }

  // ----- sorting ------------------------------------------------------------------------------------

  function InsertByAge(x: Item, items: seq<Item>): seq<Item> {
    if items == [] || x.at < items[0].at then [x] + items else [items[0]] + InsertByAge(x, items[1..])
  }

  lemma {:induction false} InsertAdds(x: Item, items: seq<Item>)
    ensures multiset(InsertByAge(x, items)) == multiset(items) + multiset{x}
  {
    if items == [] || x.at < items[0].at {
      assert multiset([x] + items) == multiset([x]) + multiset(items);
    } else {
      InsertAdds(x, items[1..]);
      assert items == [items[0]] + items[1..];
    }
  }

  /** No element of an insertion is older than both the new and the old elements. */
  lemma {:induction false} InsertBound(x: Item, items: seq<Item>, at: int)
    requires at <= x.at && forall i | 0 <= i < |items| :: at <= items[i].at
    ensures forall i | 0 <= i < |InsertByAge(x, items)| :: at <= InsertByAge(x, items)[i].at
  {
    if items != [] && x.at >= items[0].at {
      InsertBound(x, items[1..], at);
    }
  }

  lemma {:induction false} InsertSorts(x: Item, items: seq<Item>)
    requires OldestFirst(items)
    ensures OldestFirst(InsertByAge(x, items))
  {
    if items != [] && x.at >= items[0].at {
      InsertSorts(x, items[1..]);
      InsertBound(x, items[1..], items[0].at);
    }
  }

  /** Sort by age, oldest first. */
  method SortByAge(items: seq<Item>) returns (r: seq<Item>)
    ensures OldestFirst(r) && multiset(r) == multiset(items)
  {
    r := [];
    for i := 0 to |items|
      invariant OldestFirst(r) && multiset(r) == multiset(items[..i])
    {
      assert items[..i + 1] == items[..i] + [items[i]];
      InsertSorts(items[i], r);
      InsertAdds(items[i], r);
      r := InsertByAge(items[i], r);
    }
    assert items[..|items|] == items;
  }

  // ----- pruning --------------------------------------------------------------------------------------

  predicate Stale(f: File, now: int) { now - f.at >= 604800 }

  /** There is room for one more file. */
  predicate Fits(items: seq<Item>, incoming: nat) {
    Total(items) + incoming <= 2147483648 && |items| < 256
  }

  /** What pruning leaves: the current files, oldest first, without the shortest prefix whose
      eviction makes room. */
  ghost predicate PrunedTo(current: Directory, left: Directory, incoming: nat, sorted: seq<Item>, n: nat) {
    && Lists(sorted, current) && OldestFirst(sorted) && n <= |sorted| && Lists(sorted[n..], left)
    && (n < |sorted| ==> Fits(sorted[n..], incoming))
    && forall k: nat | k < n :: !Fits(sorted[k..], incoming)
  }

  function Current(d: Directory, keep: string, now: int): Directory {
    map p | p in d && p != keep && !Stale(d[p], now) :: d[p]
  }

  /** The sweep so far: the files still to do are untouched, the others kept are listed. */
  ghost predicate Swept(before: Directory, files: Directory, items: seq<Item>, todo: set<string>, keep: string, now: int) {
    && todo <= files.Keys && todo <= before.Keys
    && files == (map p | p in before && (p in todo || (p != keep && !Stale(before[p], now))) :: before[p])
    && Lists(items, files - todo)
  }

  lemma SweepStarts(before: Directory, keep: string, now: int)
    ensures Swept(before, before, [], before.Keys, keep, now)
  {
    EmptyListing();
    assert before - before.Keys == map[];
  }

  lemma SweptKeeps(before: Directory, files: Directory, items: seq<Item>, todo: set<string>, keep: string, now: int)
    requires Swept(before, files, items, todo, keep, now)
    ensures files.Keys <= before.Keys && forall p | p in files :: files[p] == before[p]
  {
  }

  lemma SweptOne(before: Directory, files: Directory, items: seq<Item>, todo: set<string>, p: string, keep: string, now: int)
    requires Swept(before, files, items, todo, keep, now) && p in todo
    ensures p in files
    ensures var f := files[p];
      if p == keep || Stale(f, now) then Swept(before, files - {p}, items, todo - {p}, keep, now)
      else Swept(before, files, items + [Item(p, f.size, f.at)], todo - {p}, keep, now)
  {
    hide Lists, Stale;
    var f := files[p];
    if p == keep || Stale(f, now) {
      assert files - {p} - (todo - {p}) == files - todo;
    } else {
      assert files - (todo - {p}) == (files - todo)[p := f];
      ListOneMore(items, files - todo, p, f);
    }
  }

  lemma SweepEnds(before: Directory, files: Directory, items: seq<Item>, keep: string, now: int)
    requires Swept(before, files, items, {}, keep, now)
    ensures files == Current(before, keep, now) && Lists(items, files)
  {
    hide Lists, Stale;
    assert files - {} == files;
  }

  class Cache {
    var files: Directory

    /** Remove a file; the system may refuse. */
    method Remove(path: string, refused: set<string>) returns (ok: bool)
      modifies this
      ensures ok <==> path !in refused
      ensures files == if ok then old(files) - {path} else old(files)
    {
      ok := path !in refused;
      if ok {
        files := files - {path};
      }
    }

    /** List the directory, removing the file to be replaced and every expired one. */
    method Sweep(keep: string, now: int, refused: set<string>) returns (ok: bool, items: seq<Item>)
      modifies this
      ensures files.Keys <= old(files).Keys && forall p | p in files :: files[p] == old(files)[p]
      ensures ok ==> files == Current(old(files), keep, now) && Lists(items, files)
      ensures refused !! old(files).Keys ==> ok
    {
      hide Swept, Lists;
      items := [];
      var todo := files.Keys;
      ghost var before := files;
      SweepStarts(before, keep, now);
      while todo != {}
        invariant todo <= files.Keys && Swept(before, files, items, todo, keep, now)
        decreases |todo|
      {
        SweptKeeps(before, files, items, todo, keep, now);
        var p := Pick(todo);
        var f := files[p];
        SweptOne(before, files, items, todo, p, keep, now);
        todo := todo - {p};
        if p == keep || now - f.at >= CACHE_AGE {
          ok := Remove(p, refused);
          if !ok {
            return;
          }
        } else {
          items := items + [Item(p, f.size, f.at)];
        }
      }
      SweptKeeps(before, files, items, todo, keep, now);
      SweepEnds(before, files, items, keep, now);
      ok := true;
    }

    /** Make room for an incoming file. */
    method Prune(incoming: nat, keep: string, now: int, refused: set<string>) returns (ok: bool, ghost sorted: seq<Item>, ghost n: nat)
      modifies this
      ensures ok ==> PrunedTo(Current(old(files), keep, now), files, incoming, sorted, n)
      ensures refused !! old(files).Keys ==> ok
    {
      hide Lists, OldestFirst, Current;
      sorted, n := [], 0;
      var listed;
      ok, listed := Sweep(keep, now, refused);
      if !ok {
        return;
      }
      ghost var current := files;
      var items := SortByAge(listed);
      SameItems(listed, items, files);
      sorted := items;
      ok, n := Evict(items, incoming, refused);
    }

    /** Remove files from the front of the list until the incoming one fits. */
    method Evict(items: seq<Item>, incoming: nat, refused: set<string>) returns (ok: bool, ghost n: nat)
      requires Lists(items, files)
      modifies this
      ensures n <= |items|
      ensures ok ==> Lists(items[n..], files) && (n < |items| ==> Fits(items[n..], incoming))
      ensures ok ==> forall k: nat | k < n :: !Fits(items[k..], incoming)
      ensures refused !! old(files).Keys ==> ok
    {
      hide Lists, Total;
      ok, n := true, 0;
      var left := items;
      var total := Sum(items);
      while |left| > 0 && (total + incoming > MAX_BYTES || |left| >= MAX_FILES)
        invariant ok && n <= |items| && left == items[n..] && total == Total(left)
        invariant Lists(left, files) && files.Keys <= old(files).Keys
        invariant forall k: nat | k < n :: !Fits(items[k..], incoming)
        decreases |left|
      {
        var v := left[0];
        ListsWithoutFirst(left, files);
        TotalWithoutFirst(left);
        ok := Remove(v.path, refused);
        if !ok {
          return;
        }
        total := total - v.size;
        left := left[1..];
        n := n + 1;
      }
    }

    /** Publish an artifact of an acceptable size: prune, then put the file in place. */
    method Publish(path: string, size: nat, now: int, refused: set<string>) returns (ok: bool)
      modifies this
      ensures !(0 < size <= 268435456) ==> !ok && files == old(files)
      ensures 0 < size <= 268435456 && refused !! old(files).Keys ==> ok
      ensures ok ==> path in files && files[path] == File(size, now)
      ensures ok ==> |files| <= 256 && exists bytes: nat | bytes <= 2147483648 :: Holds(files, bytes)
    {
      if size == 0 || size > MAX_ARTIFACT {
        return false;
      }
      hide PrunedTo, Holds;
      ghost var sorted, n;
      ok, sorted, n := Prune(size, path, now, refused);
      if ok {
        PrunedExcludes(old(files), path, now, files, size, sorted, n);
        PublishedFits(Current(old(files), path, now), files, path, size, now, sorted, n);
        files := files[path := File(size, now)];
      }
    }
  }

  /** After pruning, the incoming file fits. */
  lemma PublishedFits(current: Directory, left: Directory, path: string, size: nat, now: int, sorted: seq<Item>, n: nat)
    requires PrunedTo(current, left, size, sorted, n) && path !in left && size <= MAX_ARTIFACT
    ensures var files := left[path := File(size, now)];
      |files| <= 256 && exists bytes: nat | bytes <= 2147483648 :: Holds(files, bytes)
  {
    hide Lists, OldestFirst, Total;
    var items := sorted[n..];
    ListedCount(items, left);
    ListOneMore(items, left, path, File(size, now));
    AppendTotal(items, Item(path, size, now));
    var all := items + [Item(path, size, now)];
    ListedCount(all, left[path := File(size, now)]);
    NothingListed();
    assert items == [] || Fits(items, size);
    assert Holds(left[path := File(size, now)], Total(all));
  }

  lemma NothingListed()
    ensures Total([]) == 0
  {
  }

  lemma EmptyListing()
    ensures Lists([], map[])
  {
  }

  lemma TotalWithoutFirst(items: seq<Item>)
    requires items != []
    ensures Total(items) == items[0].size + Total(items[1..])
  {
  }

  lemma PrunedExcludes(before: Directory, keep: string, now: int, left: Directory, incoming: nat, sorted: seq<Item>, n: nat)
    requires PrunedTo(Current(before, keep, now), left, incoming, sorted, n)
    ensures keep !in left
  {
    assert forall i | 0 <= i < |sorted[n..]| :: sorted[n..][i] == sorted[n + i] && sorted[n + i].path in Current(before, keep, now);
  }

  method Sum(items: seq<Item>) returns (total: nat)
    ensures total == Total(items)
  {
    total := 0;
    var i := |items|;
    while i > 0
      invariant 0 <= i <= |items| && total == Total(items[i..])
    {
      i := i - 1;
      assert items[i..][1..] == items[i + 1..];
      total := total + items[i].size;
    }
    assert items[0..] == items;
  }

  lemma {:induction false} AppendTotal(items: seq<Item>, x: Item)
    ensures Total(items + [x]) == Total(items) + x.size
  {
    if items != [] {
      assert (items + [x])[1..] == items[1..] + [x];
      AppendTotal(items[1..], x);
    }
  }

  lemma ListOneMore(items: seq<Item>, d: Directory, p: string, f: File)
    requires Lists(items, d) && p !in d
    ensures Lists(items + [Item(p, f.size, f.at)], d[p := f])
  {
    var all, after := items + [Item(p, f.size, f.at)], d[p := f];
    forall q | q in after
      ensures exists i :: 0 <= i < |all| && all[i].path == q
    {
      if q == p {
        assert all[|items|].path == q;
      } else {
        var i :| 0 <= i < |items| && items[i].path == q;
        assert all[i].path == q;
      }
    }
  }

  /** A permutation of a listing lists the same directory. */
  lemma SameItems(a: seq<Item>, b: seq<Item>, d: Directory)
    requires Lists(a, d) && multiset(a) == multiset(b)
    ensures Lists(b, d)
  {
    forall i | 0 <= i < |b|
      ensures b[i] in a
    {
      assert b[i] in multiset(b);
    }
    forall p | p in d
      ensures exists i :: 0 <= i < |b| && b[i].path == p
    {
      var i :| 0 <= i < |a| && a[i].path == p;
      assert a[i] in multiset(a);
      assert a[i] in b;
    }
    DistinctPermutation(a, b);
  }

  lemma DistinctPermutation(a: seq<Item>, b: seq<Item>)
    requires DistinctPaths(a) && multiset(a) == multiset(b)
    ensures DistinctPaths(b)
  {
    forall i, j | 0 <= i < j < |b|
      ensures b[i].path != b[j].path
    {
      assert b[i] in multiset(b) && b[j] in multiset(b);
      assert b[i] in a && b[j] in a;
      if b[i].path == b[j].path {
        assert b[i] == b[j];
        TwiceIn(b, i, j);
        OnceIn(a, b[i]);
      }
    }
  }

  lemma TwiceIn(s: seq<Item>, i: nat, j: nat)
    requires i < j < |s| && s[i] == s[j]
    ensures multiset(s)[s[i]] >= 2
  {
    assert s == s[..j] + [s[j]] + s[j + 1..];
    assert s[..j][i] == s[i];
    assert s[i] in multiset(s[..j]);
  }

  lemma {:induction false} OnceIn(s: seq<Item>, x: Item)
    requires DistinctPaths(s)
    ensures multiset(s)[x] <= 1
  {
    if s != [] {
      var rest := s[1..];
      assert s == [s[0]] + rest;
      OnceIn(rest, x);
      if s[0] == x {
        FirstOnlyOnce(s);
      }
    }
  }

  lemma FirstOnlyOnce(s: seq<Item>)
    requires DistinctPaths(s) && s != []
    ensures s[0] !in s[1..]
  {
    assert forall i | 0 <= i < |s[1..]| :: s[1..][i] == s[i + 1];
  }

  // ----- single flight ---------------------------------------------------------------------------------

  /** A flight is a channel; a caller that began one holds its key and channel until done. */
  datatype Flights = Flights(open: map<string, nat>, holders: map<int, (string, nat)>, next: nat)

  datatype FlightEvent = Begin(caller: int, key: string) | Done(caller: int)

  /** A caller waits while somebody else holds the key; done closes the caller's own flight. */
  function FlightStep(s: Flights, e: FlightEvent): Flights {
    match e
    case Begin(caller, key) =>
      if caller in s.holders || key in s.open then s
      else Flights(s.open[key := s.next], s.holders[caller := (key, s.next)], s.next + 1)
    case Done(caller) =>
      if caller !in s.holders then s
      else Flights(s.open - {s.holders[caller].0}, s.holders - {caller}, s.next)
  }

  function FlightsAt(run: seq<FlightEvent>, i: nat): Flights
    requires i <= |run|
  {
    if i == 0 then Flights(map[], map[], 0) else FlightStep(FlightsAt(run, i - 1), run[i - 1])
  }

  /** Every open flight has a holder with that very channel, and every holder's flight is open. */
  ghost predicate FlightsOk(s: Flights) {
    && (forall c | c in s.holders :: s.holders[c].0 in s.open && s.open[s.holders[c].0] == s.holders[c].1 < s.next)
    && (forall k | k in s.open :: exists c | c in s.holders :: s.holders[c].0 == k)
    && (forall c, d | c in s.holders && d in s.holders && s.holders[c].0 == s.holders[d].0 :: c == d)
  }

  lemma BeginOk(s: Flights, caller: int, key: string)
    requires FlightsOk(s)
    ensures FlightsOk(FlightStep(s, Begin(caller, key)))
  {
    var t := FlightStep(s, Begin(caller, key));
    forall k | k in t.open
      ensures exists c | c in t.holders :: t.holders[c].0 == k
    {
      if k in s.open {
        var c :| c in s.holders && s.holders[c].0 == k;
        assert c in t.holders && t.holders[c].0 == k;
      } else {
        assert caller in t.holders && t.holders[caller].0 == k;
      }
    }
  }

  lemma DoneOk(s: Flights, caller: int)
    requires FlightsOk(s)
    ensures FlightsOk(FlightStep(s, Done(caller)))
  {
    var t := FlightStep(s, Done(caller));
    forall k | k in t.open
      ensures exists c | c in t.holders :: t.holders[c].0 == k
    {
      var c :| c in s.holders && s.holders[c].0 == k;
      assert c in t.holders && t.holders[c].0 == k;
    }
  }

  lemma FlightStepOk(s: Flights, e: FlightEvent)
    requires FlightsOk(s)
    ensures FlightsOk(FlightStep(s, e))
  {
    hide FlightsOk, FlightStep;
    match e
    case Begin(caller, key) => BeginOk(s, caller, key);
    case Done(caller) => DoneOk(s, caller);
  }

  /** In every run at most one caller holds a key, and nobody's flight is closed by another. */
  lemma {:induction false} OneFlightPerKey(run: seq<FlightEvent>, i: nat)
    requires i <= |run|
    ensures FlightsOk(FlightsAt(run, i))
  {
    hide FlightStep, FlightsOk;
    if i == 0 {
      NoFlights();
    } else {
      OneFlightPerKey(run, i - 1);
      FlightStepOk(FlightsAt(run, i - 1), run[i - 1]);
    }
  }

  lemma NoFlights()
    ensures FlightsOk(Flights(map[], map[], 0))
  {
  }

  /** A free caller gets a free key, whoever waits for it waits until it is done, and done frees it. */
  lemma FlightsMove(s: Flights, caller: int, key: string)
    requires FlightsOk(s)
    ensures var t := FlightStep(s, Begin(caller, key));
      && (caller !in s.holders && key !in s.open ==> caller in t.holders && t.holders[caller].0 == key && key in t.open)
      && (key in s.open ==> t == s)
    ensures caller in s.holders ==>
      var t := FlightStep(s, Done(caller)); caller !in t.holders && s.holders[caller].0 !in t.open
  {
  }
}
