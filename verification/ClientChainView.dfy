/** Client proxy chains at read time: which lines a catalogue shows and a client file emits. */
module ClientChainView {
  import opened ClientChainStore

  datatype Value = Nil | Text(text: string) | Other

  /** A line visible to a user.  `entry` is zero for a line that is not an entry, `dialer` is zero
      for a line that needs no front. */
  datatype Published = Published(entry: int, dialer: int, name: string, extra: map<string, Value>, tcpOnly: bool, shadowTls: bool)

  type Index = map<int, Published>

  function IndexOf(lines: seq<Published>): Index {
    if lines == [] then map[]
    else
      var last := lines[|lines| - 1];
      var rest := IndexOf(lines[..|lines| - 1]);
      if last.entry != 0 then rest[last.entry := last] else rest
  }

  lemma {:induction false} IndexedIsVisible(lines: seq<Published>, id: int)
    requires id in IndexOf(lines)
    ensures IndexOf(lines)[id] in lines && IndexOf(lines)[id].entry == id && id != 0
  {
    var n := |lines| - 1;
    if lines[n].entry != id || id == 0 {
      IndexedIsVisible(lines[..n], id);
    }
  }

  method BuildIndex(lines: seq<Published>) returns (index: Index)
    ensures index == IndexOf(lines)
  {
    index := map[];
    for i := 0 to |lines|
      invariant index == IndexOf(lines[..i])
    {
      assert lines[..i + 1][..i] == lines[..i];
      if lines[i].entry != 0 {
        index := index[lines[i].entry := lines[i]];
      }
    }
    assert lines[..|lines|] == lines;
  }

  // ----- the catalogue ------------------------------------------------------------------------

  /** The walk of the catalogue, with the entries already passed and the number of nodes left. */
  predicate Walk(index: Index, l: Published, seen: set<int>, left: nat)
    decreases left
  {
    || l.dialer == 0
    || (left > 1 && l.entry !in seen && l.dialer in index && Walk(index, index[l.dialer], seen + {l.entry}, left - 1))
  }

  predicate Shown(lines: seq<Published>, l: Published) { Walk(IndexOf(lines), l, {}, MAX_CHAIN) }

  function Filter(lines: seq<Published>, all: seq<Published>): seq<Published> {
    if lines == [] then []
    else
      var rest := Filter(lines[..|lines| - 1], all);
      if Shown(all, lines[|lines| - 1]) then rest + [lines[|lines| - 1]] else rest
  }

  method AvailablePublications(lines: seq<Published>) returns (out: seq<Published>)
    ensures out == Filter(lines, lines)
  {
    var index := BuildIndex(lines);
    out := [];
    for i := 0 to |lines|
      invariant out == Filter(lines[..i], lines)
    {
      assert lines[..i + 1][..i] == lines[..i];
      var current, seen, depth, valid := lines[i], {}, 1, true;
      while current.dialer != 0
        invariant 1 <= depth <= MAX_CHAIN
        invariant Shown(lines, lines[i]) <==> valid && Walk(index, current, seen, MAX_CHAIN + 1 - depth)
        invariant valid
        decreases MAX_CHAIN - depth
      {
        if depth >= MAX_CHAIN || current.entry in seen || current.dialer !in index {
          valid := false;
          break;
        }
        seen := seen + {current.entry};
        current, depth := index[current.dialer], depth + 1;
      }
      if valid {
        out := out + [lines[i]];
      }
    }
    assert lines[..|lines|] == lines;
  }

  /** The lines are views of stored entries: each entry once, with its own dialer. */
  ghost predicate Views(lines: seq<Published>, m: Entries) {
    && (forall i | 0 <= i < |lines| && lines[i].entry == 0 :: lines[i].dialer == 0)
    && (forall i | 0 <= i < |lines| && lines[i].entry != 0 ::
          lines[i].entry in m && lines[i].dialer == if m[lines[i].entry].dialer.Some? then m[lines[i].entry].dialer.value else 0)
    && (forall i, j | 0 <= i < j < |lines| && lines[i].entry == lines[j].entry :: lines[i].entry == 0)
  }

  /** A set of visible entries that holds the front of each of its members. */
  ghost predicate ClosedSet(index: Index, c: set<int>) {
    forall id | id in c :: id in index && (index[id].dialer != 0 ==> index[id].dialer in c)
  }

  lemma {:induction false} IndexFinds(lines: seq<Published>, m: Entries, i: nat)
    requires Views(lines, m) && i < |lines| && lines[i].entry != 0
    ensures lines[i].entry in IndexOf(lines) && IndexOf(lines)[lines[i].entry] == lines[i]
  {
    var n := |lines| - 1;
    if i < n {
      assert Views(lines[..n], m) by {
        forall j, k | 0 <= j < k < n && lines[..n][j].entry == lines[..n][k].entry
          ensures lines[..n][j].entry == 0
        {
          assert lines[j].entry == lines[k].entry;
        }
      }
      IndexFinds(lines[..n], m, i);
      assert lines[n].entry != lines[i].entry;
    }
  }

  /** The front of a shown line is shown. */
  lemma WalkNeedsFront(index: Index, l: Published)
    requires Walk(index, l, {}, MAX_CHAIN) && l.dialer != 0
    ensures l.dialer in index && Walk(index, index[l.dialer], {}, MAX_CHAIN)
  {
    WalkMonotone(index, index[l.dialer], {l.entry}, MAX_CHAIN - 1, {}, MAX_CHAIN);
  }

  lemma {:induction false} WalkMonotone(index: Index, l: Published, seen: set<int>, left: nat, seen': set<int>, left': nat)
    requires Walk(index, l, seen, left) && seen' <= seen && left <= left'
    ensures Walk(index, l, seen', left')
    decreases left
  {
    if l.dialer != 0 {
      WalkMonotone(index, index[l.dialer], seen + {l.entry}, left - 1, seen' + {l.entry}, left' - 1);
    }
  }

  /** Inside a closed set of stored entries the walk reaches its end. */
  lemma {:induction false} ClosedWalks(index: Index, c: set<int>, m: Entries, id: int, seen: set<int>, left: nat)
    requires ClosedSet(index, c) && id in c && ChainOk(m, id, left)
    requires forall k | k in index :: k in m && index[k].entry == k && index[k].dialer == if m[k].dialer.Some? then m[k].dialer.value else 0
    requires forall s | s in seen :: ChainOk(m, s, left + |seen|) && ChainLength(m, s, left + |seen|) > ChainLength(m, id, left)
    ensures Walk(index, index[id], seen, left)
    decreases left
  {
    if index[id].dialer != 0 {
      var front := m[id].dialer.value;
      if id in seen {
        ChainLonger(m, id, left, left + |seen|);
        assert false;
      }
      var more := seen + {id};
      forall s | s in more
        ensures ChainOk(m, s, left - 1 + |more|) && ChainLength(m, s, left - 1 + |more|) > ChainLength(m, front, left - 1)
      {
        if s == id {
          ChainLonger(m, id, left, left - 1 + |more|);
        }
      }
      ClosedWalks(index, c, m, front, more, left - 1);
    }
  }

  lemma IndexMatchesStore(lines: seq<Published>, m: Entries, k: int)
    requires Views(lines, m) && k in IndexOf(lines)
    ensures var l := IndexOf(lines)[k];
      k in m && l.entry == k && l.dialer == (if m[k].dialer.Some? then m[k].dialer.value else 0)
  {
    IndexedIsVisible(lines, k);
  }

  /** On lines of a well-formed store the catalogue shows exactly the members of the largest
      visible set closed under the dialer reference. */
  lemma ShownIsLargestClosed(lines: seq<Published>, m: Entries)
    requires StoreOk(m) && Views(lines, m)
    ensures var shown := set id | id in IndexOf(lines) && Shown(lines, IndexOf(lines)[id]);
      && ClosedSet(IndexOf(lines), shown)
      && (forall c | ClosedSet(IndexOf(lines), c) :: c <= shown)
      && (forall i | 0 <= i < |lines| :: Shown(lines, lines[i]) <==> lines[i].entry == 0 || lines[i].entry in shown)
  {
    var index := IndexOf(lines);
    var shown := set id | id in index && Shown(lines, index[id]);
    forall id | id in shown && index[id].dialer != 0
      ensures index[id].dialer in shown
    {
      WalkNeedsFront(index, index[id]);
    }
    forall k | k in index
      ensures k in m && index[k].entry == k && index[k].dialer == if m[k].dialer.Some? then m[k].dialer.value else 0
    {
      IndexMatchesStore(lines, m, k);
    }
    forall c, id | ClosedSet(index, c) && id in c
      ensures id in shown
    {
      ClosedWalks(index, c, m, id, {}, MAX_CHAIN);
    }
    forall i | 0 <= i < |lines| && lines[i].entry != 0
      ensures lines[i].entry in index && index[lines[i].entry] == lines[i]
    {
      IndexFinds(lines, m, i);
    }
  }

  /** `a` is `b` with some elements left out. */
  predicate Subsequence<T(==)>(a: seq<T>, b: seq<T>) {
    || a == []
    || (b != [] && a[|a| - 1] == b[|b| - 1] && Subsequence(a[..|a| - 1], b[..|b| - 1]))
    || (b != [] && Subsequence(a, b[..|b| - 1]))
  }

  /** The catalogue keeps the order of the lines, and every copy of a line it shows. */
  lemma {:induction false} FilterKeepsOrder(lines: seq<Published>, all: seq<Published>, l: Published)
    ensures Subsequence(Filter(lines, all), lines)
    ensures multiset(Filter(lines, all))[l] == if Shown(all, l) then multiset(lines)[l] else 0
  {
    if lines != [] {
      var n := |lines| - 1;
      FilterKeepsOrder(lines[..n], all, l);
      assert lines == lines[..n] + [lines[n]];
      var rest := Filter(lines[..n], all);
      if Shown(all, lines[n]) {
        assert (rest + [lines[n]])[..|rest|] == rest;
      }
    }
  }

  // ----- client files -----------------------------------------------------------------------------

  /** What the renderer of a format says: how often each name appears in the rendered file, and
      which entries it can express. */
  datatype Renderer = Renderer(format: string, counts: map<string, nat>, supports: set<int>)

  const CHAIN_FORMATS := {"clash", "stash", "singbox"}
  const REPLACED := {"type", "server", "port", "server-port", "udp"}
  const DIALER_FIELDS := {"dialer-proxy", "detour"}
  const RESERVED := {"DIRECT", "REJECT", "REJECT-DROP", "PASS", "PASS-RULE", "COMPATIBLE", "GLOBAL"}

  function Lower(c: char): char { if 'A' <= c <= 'Z' then c + ('a' - 'A') else c }

  function Upper(c: char): char { if 'a' <= c <= 'z' then c - ('a' - 'A') else c }

  /** A field name as a tolerant client decoder reads it. */
  function Canonical(s: string): string {
    seq(|s|, i requires 0 <= i < |s| => if s[i] == '_' then '-' else Lower(s[i]))
  }

  function UpperCase(s: string): string { seq(|s|, i requires 0 <= i < |s| => Upper(s[i])) }

  predicate FieldOk(l: Published, field: string)
    requires field in l.extra
  {
    var c := Canonical(field);
    && c !in REPLACED
    && (c in {"name", "tag"} ==> l.extra[field] == Text(l.name))
    && (c in DIALER_FIELDS && l.dialer == 0 ==> l.extra[field] == Nil)
  }

  /** Everything `valid` asks of a line besides its chain. */
  predicate Fit(r: Renderer, l: Published) {
    && l.name in r.counts && r.counts[l.name] == 1 && l.entry in r.supports
    && (forall field | field in l.extra :: FieldOk(l, field))
    && (r.format != "singbox" ==> UpperCase(l.name) !in RESERVED)
    && (l.dialer != 0 && r.format != "singbox" ==> !l.tcpOnly)
    && (l.dialer != 0 && r.format == "singbox" ==> !l.shadowTls)
  }

  predicate ValidChain(r: Renderer, index: Index, l: Published, seen: set<int>, depth: nat)
    decreases MAX_CHAIN + 1 - depth
  {
    && depth <= MAX_CHAIN && l.entry !in seen && Fit(r, l)
    && (l.dialer != 0 ==> l.dialer in index && ValidChain(r, index, index[l.dialer], seen + {l.entry}, depth + 1))
  }

  function DialKey(format: string): string { if format == "singbox" then "detour" else "dialer-proxy" }

  predicate Dropped(format: string, field: string) {
    Canonical(field) in DIALER_FIELDS || (format == "stash" && Canonical(field) == "interface-name")
  }

  /** The fields of a dependent line, dialled through the named front. */
  function Dialled(format: string, extra: map<string, Value>, front: string): map<string, Value> {
    (map field | field in extra && !Dropped(format, field) :: extra[field])[DialKey(format) := Text(front)]
  }

  /** One line as emitted, or nothing. */
  function Emit(r: Renderer, index: Index, l: Published): seq<Published> {
    if l.dialer == 0 then [l]
    else if r.format !in CHAIN_FORMATS || l.dialer !in index || !ValidChain(r, index, l, {}, 1) then []
    else [l.(extra := Dialled(r.format, l.extra, index[l.dialer].name))]
  }

  function EmitAll(r: Renderer, index: Index, lines: seq<Published>): seq<Published> {
    if lines == [] then [] else EmitAll(r, index, lines[..|lines| - 1]) + Emit(r, index, lines[|lines| - 1])
  }

  /** The recursion of the panel; `seen` is handed down and grows on the way. */
  method CheckChain(r: Renderer, index: Index, l: Published, seen: set<int>, depth: nat) returns (ok: bool)
    ensures ok == ValidChain(r, index, l, seen, depth)
    decreases MAX_CHAIN + 1 - depth
  {
    if depth > MAX_CHAIN || l.entry in seen || !Fit(r, l) {
      return false;
    }
    if l.dialer == 0 {
      return true;
    }
    if l.dialer !in index {
      return false;
    }
    ok := CheckChain(r, index, index[l.dialer], seen + {l.entry}, depth + 1);
  }

  /** The lines a format without chains would take, and whether any line needs a front. */
  method PlainLines(r: Renderer, lines: seq<Published>) returns (hasChain: bool, plain: seq<Published>)
    ensures hasChain <==> exists k | 0 <= k < |lines| :: lines[k].dialer != 0
    ensures !hasChain || r.format !in CHAIN_FORMATS ==> plain == EmitAll(r, IndexOf(lines), lines)
  {
    hide IndexOf, ValidChain;
    hasChain, plain := false, [];
    for i := 0 to |lines|
      invariant hasChain <==> exists k | 0 <= k < i :: lines[k].dialer != 0
      invariant !hasChain || r.format !in CHAIN_FORMATS ==> plain == EmitAll(r, IndexOf(lines), lines[..i])
    {
      assert lines[..i + 1][..i] == lines[..i];
      hasChain := hasChain || lines[i].dialer != 0;
      if r.format in CHAIN_FORMATS || lines[i].dialer == 0 {
        plain := plain + [lines[i]];
      }
    }
    assert lines[..|lines|] == lines;
  }

  method ClientLines(r: Renderer, lines: seq<Published>) returns (out: seq<Published>)
    ensures out == EmitAll(r, IndexOf(lines), lines)
  {
    hide IndexOf, ValidChain;
    var hasChain, plain := PlainLines(r, lines);
    if r.format !in CHAIN_FORMATS || !hasChain {
      return plain;
    }
    var index := BuildIndex(lines);
    out := [];
    for i := 0 to |lines|
      invariant out == EmitAll(r, index, lines[..i])
    {
      assert lines[..i + 1][..i] == lines[..i];
      var l := lines[i];
      if l.dialer == 0 {
        out := out + [l];
      } else {
        var ok := CheckChain(r, index, l, {}, 1);
        ValidHasFront(r, index, l);
        if ok {
          out := out + [l.(extra := Dialled(r.format, l.extra, index[l.dialer].name))];
        }
      }
    }
    assert lines[..|lines|] == lines;
  }

  lemma ValidHasFront(r: Renderer, index: Index, l: Published)
    ensures ValidChain(r, index, l, {}, 1) && l.dialer != 0 ==> l.dialer in index
  {
  }

  /** Fewer entries seen and fewer nodes used can only help. */
  lemma {:induction false} ValidMonotone(r: Renderer, index: Index, l: Published, seen: set<int>, depth: nat, seen': set<int>, depth': nat)
    requires ValidChain(r, index, l, seen, depth) && seen' <= seen && depth' <= depth
    ensures ValidChain(r, index, l, seen', depth')
    decreases MAX_CHAIN + 1 - depth
  {
    if l.dialer != 0 {
      ValidMonotone(r, index, index[l.dialer], seen + {l.entry}, depth + 1, seen' + {l.entry}, depth' + 1);
    }
  }

  lemma {:induction false} EmitAllHas(r: Renderer, index: Index, lines: seq<Published>, e: Published)
    ensures e in EmitAll(r, index, lines) <==> exists i | 0 <= i < |lines| :: e in Emit(r, index, lines[i])
  {
    if lines != [] {
      var n := |lines| - 1;
      EmitAllHas(r, index, lines[..n], e);
      assert forall i | 0 <= i < n :: lines[..n][i] == lines[i];
    }
  }

  /** A line is emitted, through fronts that are emitted too, in at most `n` nodes. */
  ghost predicate EmittedThrough(r: Renderer, lines: seq<Published>, e: Published, n: nat)
    decreases n
  {
    && n > 0 && e in EmitAll(r, IndexOf(lines), lines)
    && (e.dialer != 0 ==>
          exists front :: IsFront(r, lines, e, front) && EmittedThrough(r, lines, front, n - 1))
  }

  /** `front` carries the entry `e` depends on, under a name found once in the file, and is the
      one dialer that any reading of the fields of `e` can find. */
  ghost predicate IsFront(r: Renderer, lines: seq<Published>, e: Published, front: Published) {
    && front.entry == e.dialer
    && front.name in r.counts && r.counts[front.name] == 1
    && DialKey(r.format) in e.extra && e.extra[DialKey(r.format)] == Text(front.name)
    && forall field | field in e.extra && Canonical(field) in DIALER_FIELDS :: field == DialKey(r.format)
  }

  lemma DialledIsFront(r: Renderer, lines: seq<Published>, l: Published, front: Published, shown: Published)
    requires r.format in CHAIN_FORMATS && Fit(r, front) && front.entry == l.dialer && shown.entry == front.entry && shown.name == front.name
    ensures IsFront(r, lines, l.(extra := Dialled(r.format, l.extra, front.name)), shown)
  {
  }

  /** The emitted form of a valid line is emitted through emitted fronts. */
  lemma {:induction false} ValidIsEmitted(r: Renderer, lines: seq<Published>, l: Published, depth: nat)
    requires r.format in CHAIN_FORMATS && l in lines && l.dialer != 0 && 1 <= depth
    requires ValidChain(r, IndexOf(lines), l, {}, depth)
    ensures EmittedThrough(r, lines, l.(extra := Dialled(r.format, l.extra, IndexOf(lines)[l.dialer].name)), MAX_CHAIN + 1 - depth)
    decreases MAX_CHAIN + 1 - depth
  {
    hide IndexOf, EmitAll, Dialled, IsFront, Fit;
    var index := IndexOf(lines);
    var front := index[l.dialer];
    IndexedIsVisible(lines, l.dialer);
    var e := l.(extra := Dialled(r.format, l.extra, front.name));
    ValidMonotone(r, index, l, {}, depth, {}, 1);
    EmittedFrom(r, lines, l, e);
    assert {} + {l.entry} == {l.entry};
    ValidMonotone(r, index, front, {l.entry}, depth + 1, {}, depth + 1);
    var shown := if front.dialer == 0 then front else front.(extra := Dialled(r.format, front.extra, index[front.dialer].name));
    if front.dialer == 0 {
      EmittedFrom(r, lines, front, front);
    } else {
      ValidIsEmitted(r, lines, front, depth + 1);
    }
    DialledIsFront(r, lines, l, front, shown);
    assert EmittedThrough(r, lines, shown, MAX_CHAIN - depth);
  }

  lemma EmittedFrom(r: Renderer, lines: seq<Published>, l: Published, e: Published)
    requires l in lines && e in Emit(r, IndexOf(lines), l)
    ensures e in EmitAll(r, IndexOf(lines), lines)
  {
    var i :| 0 <= i < |lines| && lines[i] == l;
    EmitAllHas(r, IndexOf(lines), lines, e);
  }

  /** Fail closed: every emitted line that depends on a front is dialled through it, and so on to
      a line that needs none, in at most eight nodes, all of them emitted. */
  lemma EmittedChainsAreWhole(r: Renderer, lines: seq<Published>, e: Published)
    requires e in EmitAll(r, IndexOf(lines), lines) && e.dialer != 0
    ensures r.format in CHAIN_FORMATS && EmittedThrough(r, lines, e, 8)
  {
    var index := IndexOf(lines);
    EmitAllHas(r, index, lines, e);
    var i :| 0 <= i < |lines| && e in Emit(r, index, lines[i]);
    ValidIsEmitted(r, lines, lines[i], 1);
  }

  // ----- exactly what is emitted ---------------------------------------------------------------------

  /** The lines a client passes through to reach `l`, from `l` to a line that needs no front: each
      fit for the format, each the visible front of the one before, none met twice. */
  ghost predicate Route(r: Renderer, index: Index, l: Published, p: seq<Published>) {
    && p != [] && p[0] == l && p[|p| - 1].dialer == 0
    && (forall i | 0 <= i < |p| :: Fit(r, p[i]))
    && (forall i | 0 <= i < |p| - 1 :: Leads(index, p[i], p[i + 1]))
    && (forall i, j | 0 <= i < j < |p| :: p[i].entry != p[j].entry)
  }

  predicate Leads(index: Index, l: Published, front: Published) {
    l.dialer != 0 && l.dialer in index && index[l.dialer] == front
  }

  ghost predicate Unseen(p: seq<Published>, seen: set<int>) { forall i | 0 <= i < |p| :: p[i].entry !in seen }

  lemma {:induction false} RouteIsValid(r: Renderer, index: Index, l: Published, p: seq<Published>, seen: set<int>, depth: nat)
    requires Route(r, index, l, p) && |p| <= MAX_CHAIN + 1 - depth && Unseen(p, seen)
    ensures ValidChain(r, index, l, seen, depth)
    decreases |p|
  {
    hide Fit;
    if |p| > 1 {
      assert Leads(index, p[0], p[1]);
      assert forall i | 0 <= i < |p[1..]| :: p[1..][i] == p[i + 1];
      assert Route(r, index, p[1], p[1..]);
      RouteIsValid(r, index, p[1], p[1..], seen + {l.entry}, depth + 1);
    }
  }

  lemma {:induction false} ValidHasRoute(r: Renderer, index: Index, l: Published, seen: set<int>, depth: nat) returns (p: seq<Published>)
    requires ValidChain(r, index, l, seen, depth)
    ensures Route(r, index, l, p) && |p| <= MAX_CHAIN + 1 - depth && Unseen(p, seen)
    decreases MAX_CHAIN + 1 - depth
  {
    hide Fit;
    if l.dialer == 0 {
      p := [l];
    } else {
      var rest := ValidHasRoute(r, index, index[l.dialer], seen + {l.entry}, depth + 1);
      p := [l] + rest;
      assert forall i | 0 < i < |p| :: p[i] == rest[i - 1];
    }
  }

  /** `e` is the emitted form of `l`: itself when it needs no front, or dialled through its visible
      front when a route of at most eight lines leads there. */
  ghost predicate EmittedAs(r: Renderer, index: Index, l: Published, e: Published) {
    if l.dialer == 0 then e == l
    else
      && r.format in CHAIN_FORMATS && l.dialer in index
      && (exists p :: Route(r, index, l, p) && |p| <= 8)
      && e == l.(extra := Dialled(r.format, l.extra, index[l.dialer].name))
  }

  lemma EmitIsEmittedAs(r: Renderer, index: Index, l: Published, e: Published)
    ensures e in Emit(r, index, l) <==> EmittedAs(r, index, l, e)
  {
    hide Fit, Dialled, Route;
    if l.dialer != 0 && ValidChain(r, index, l, {}, 1) {
      var p := ValidHasRoute(r, index, l, {}, 1);
    }
    if p :| Route(r, index, l, p) && |p| <= MAX_CHAIN {
      RouteIsValid(r, index, l, p, {}, 1);
    }
  }

  /** Nothing is lost and nothing is added: the emitted lines are exactly the emitted forms. */
  lemma EmittedExactly(r: Renderer, lines: seq<Published>, e: Published)
    ensures e in EmitAll(r, IndexOf(lines), lines) <==>
      exists i | 0 <= i < |lines| :: EmittedAs(r, IndexOf(lines), lines[i], e)
  {
    hide Emit, EmittedAs;
    var index := IndexOf(lines);
    EmitAllHas(r, index, lines, e);
    forall i | 0 <= i < |lines| {
      EmitIsEmittedAs(r, index, lines[i], e);
    }
  }

  // ----- what is asked of a line, and what is done to it ----------------------------------------------

  /** A line is fit for a format exactly when its name appears once and is not reserved, the format
      can express it, no field replaces what the panel sets, under any spelling, and, if it needs a
      front, its protocol can be dialled through one. */
  lemma FitExactly(r: Renderer, l: Published)
    ensures Fit(r, l) <==>
      && l.name in r.counts && r.counts[l.name] == 1 && l.entry in r.supports
      && (forall field | field in l.extra :: Canonical(field) !in {"type", "server", "port", "server-port", "udp"})
      && (forall field | field in l.extra && Canonical(field) in {"name", "tag"} :: l.extra[field] == Text(l.name))
      && (forall field | field in l.extra && Canonical(field) in {"dialer-proxy", "detour"} && l.dialer == 0 :: l.extra[field] == Nil)
      && (r.format == "singbox" || UpperCase(l.name) !in {"DIRECT", "REJECT", "REJECT-DROP", "PASS", "PASS-RULE", "COMPATIBLE", "GLOBAL"})
      && (l.dialer == 0 || (if r.format == "singbox" then !l.shadowTls else !l.tcpOnly))
  {
    hide Canonical, UpperCase;
    if forall field | field in l.extra :: FieldOk(l, field) {
    } else {
      var field :| field in l.extra && !FieldOk(l, field);
    }
  }

  /** A dialled line has one dialer field, naming its front, and every other field it had but
      dialers and, for Stash, the interface. */
  lemma DialledExactly(format: string, extra: map<string, Value>, front: string, field: string)
    ensures var out, key := Dialled(format, extra, front), if format == "singbox" then "detour" else "dialer-proxy";
      var kept := field in extra && Canonical(field) !in {"dialer-proxy", "detour"} && !(format == "stash" && Canonical(field) == "interface-name");
      && (field in out <==> field == key || kept)
      && (field == key ==> out[field] == Text(front))
      && (field != key && kept ==> out[field] == extra[field])
  {
    hide Canonical;
  }

  /** Field names are compared without case and with hyphens for underscores. */
  lemma CanonicalExactly(s: string)
    ensures |Canonical(s)| == |s|
    ensures forall i | 0 <= i < |s| && s[i] == '_' :: Canonical(s)[i] == '-'
    ensures forall i | 0 <= i < |s| && 'A' <= s[i] <= 'Z' :: Canonical(s)[i] as int == s[i] as int + 32
    ensures forall i | 0 <= i < |s| && s[i] != '_' && !('A' <= s[i] <= 'Z') :: Canonical(s)[i] == s[i]
  {
  }
}
