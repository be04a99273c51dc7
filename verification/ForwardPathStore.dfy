/** The path store as the panel works on it: tables updated in place by transactions that
    loop over steps, hops and references. */
module ForwardPathStore {
  import opened Collections
  import opened ForwardPathModel
  import opened ForwardPathSafety

  function Sources(steps: seq<Step>): set<RevId> {
    set i | 0 <= i < |steps| && steps[i].path > 0 :: SourceOf(steps[i])
  }

  /** A set of revisions closed under references. */
  ghost predicate Closed(s: Store, seen: set<RevId>, frontier: set<RevId>) {
    forall r | r in seen && r !in frontier && r in s.revisions :: Sources(s.revisions[r].steps) <= seen
  }

  lemma {:induction false} ClosedReaches(s: Store, seen: set<RevId>, r: RevId, wanted: int)
    requires Resolved(s) && Closed(s, seen, {}) && r in seen && Reaches(s, r, wanted)
    ensures exists q | q in seen :: q.path == wanted
    decreases if r in s.revisions then s.revisions[r].depth else 0
  {
    if r.path != wanted {
      var v := s.revisions[r];
      var i :| 0 <= i < |v.steps| && v.steps[i].path > 0 && StepResolved(s, v.steps[i], v.depth) && Reaches(s, SourceOf(v.steps[i]), wanted);
      assert SourceOf(v.steps[i]) in Sources(v.steps);
      ClosedReaches(s, seen, SourceOf(v.steps[i]), wanted);
    }
  }

  lemma SourceReaches(s: Store, r: RevId, q: RevId, wanted: int)
    requires Resolved(s) && r in s.revisions && q in Sources(s.revisions[r].steps) && Reaches(s, q, wanted)
    ensures Reaches(s, r, wanted)
  {
    var v := s.revisions[r];
    var i :| 0 <= i < |v.steps| && v.steps[i].path > 0 && SourceOf(v.steps[i]) == q;
    assert StepResolved(s, v.steps[i], v.depth);
  }

  lemma SourcesStored(s: Store, r: RevId)
    requires Resolved(s) && r in s.revisions
    ensures Sources(s.revisions[r].steps) <= s.revisions.Keys
  {
    forall q | q in Sources(s.revisions[r].steps)
      ensures q in s.revisions
    {
      var v := s.revisions[r];
      var i :| 0 <= i < |v.steps| && v.steps[i].path > 0 && SourceOf(v.steps[i]) == q;
      assert StepResolved(s, v.steps[i], v.depth);
    }
  }

  /** The recursive query for a path among the references of a revision. */
  method Ancestor(s: Store, from: RevId, wanted: int) returns (found: bool)
    requires Resolved(s)
    ensures found <==> Reaches(s, from, wanted)
  {
    hide Reaches, Resolved, Sources;
    var seen, frontier := {from}, {from};
    ghost var all := s.revisions.Keys + {from};
    while frontier != {}
      invariant frontier <= seen <= all && from in seen
      invariant Closed(s, seen, frontier)
      invariant forall r | r in seen && Reaches(s, r, wanted) :: Reaches(s, from, wanted)
      decreases |all - seen|, |frontier|
    {
      var r := Pick(frontier);
      frontier := frontier - {r};
      if r in s.revisions {
        SourcesStored(s, r);
        var more := Sources(s.revisions[r].steps) - seen;
        forall q | q in more && Reaches(s, q, wanted)
          ensures Reaches(s, from, wanted)
        {
          SourceReaches(s, r, q, wanted);
        }
        if more != {} {
          FewerLeft(all, seen, more);
        }
        seen, frontier := seen + more, frontier + more;
      }
    }
    found := exists r | r in seen :: r.path == wanted;
    if Reaches(s, from, wanted) {
      ClosedReaches(s, seen, from, wanted);
    }
    if found {
      var r :| r in seen && r.path == wanted;
      SelfReaches(s, r);
    }
  }

  lemma FewerLeft<T>(all: set<T>, seen: set<T>, more: set<T>)
    requires more <= all && more !! seen && more != {}
    ensures |all - (seen + more)| < |all - seen|
  {
    assert all - seen == (all - (seen + more)) + more;
  }

  lemma SelfReaches(s: Store, r: RevId)
    requires Resolved(s)
    ensures Reaches(s, r, r.path)
  {
  }

  lemma {:induction false} VisitStops(d: Draft, w: World, hops: seq<Hop>, k: nat)
    requires k <= |hops| && Visit(d, w, hops[..k]).Err?
    ensures Visit(d, w, hops) == Visit(d, w, hops[..k])
    decreases |hops|
  {
    if k == |hops| {
      assert hops[..k] == hops;
    } else {
      assert hops[..|hops| - 1][..k] == hops[..k];
      VisitStops(d, w, hops[..|hops| - 1], k);
    }
  }

  /** Append the hops of one step. */
  method AddHops(d: Draft, w: World, hops: seq<Hop>) returns (r: Result<Draft>)
    ensures r == Visit(d, w, hops)
  {
    var nodes, out := d.nodes, d.hops;
    for i := 0 to |hops|
      invariant Visit(d, w, hops[..i]) == Ok(d.(nodes := nodes, hops := out))
    {
      assert hops[..i + 1][..i] == hops[..i];
      var h := hops[i];
      if h.node in nodes {
        VisitStops(d, w, hops, i + 1);
        return Err(Revisit);
      }
      nodes := nodes + {h.node};
      if h.node !in w.servers {
        VisitStops(d, w, hops, i + 1);
        return Err(NotFound);
      }
      if h.ingress.Some? && h.ingress.value !in w.servers[h.node] {
        VisitStops(d, w, hops, i + 1);
        return Err(Invalid);
      }
      out := out + [h];
    }
    assert hops[..|hops|] == hops;
    r := Ok(d.(nodes := nodes, hops := out));
  }

  /** The hops of a pinned line: the capture if there is one, or the live line captured now. */
  method PinLine(pins: map<Pin, seq<Hop>>, w: World, st: Step) returns (r: Result<seq<Hop>>)
    ensures r == PinnedHops(pins, w, st)
  {
    if st.line in w.barred {
      return Err(Unavailable);
    }
    if PinOf(st) in pins {
      return Ok(pins[PinOf(st)]);
    }
    if st.line in w.owned {
      return Err(Invalid);
    }
    if st.line !in w.lines {
      return Err(NotFound);
    }
    var l := w.lines[st.line];
    if l.version != st.lineVersion {
      return Err(Conflict);
    }
    if !ValidBackend(l.backend) {
      return Err(Invalid);
    }
    var hops := [];
    for i := 0 to |l.groups|
      invariant forall k | 0 <= k < i :: |l.groups[k]| == 1
      invariant hops == LineHops(l, i)
    {
      if |l.groups[i]| != 1 {
        return Err(Invalid);
      }
      var m := l.groups[i][0];
      hops := hops + [Hop(Name(m.id), m.node, m.ingress, m.mode, WireBackend(l.backend))];
    }
    if st.landing {
      if l.landing.None? {
        return Err(Invalid);
      }
      hops := hops + [l.landing.value.(key := Name("landing"), backend := "")];
    }
    r := Ok(hops);
  }

  lemma {:induction false} ComposeStops(s: Store, w: World, id: int, steps: seq<Step>, k: nat)
    requires Resolved(s) && k <= |steps| && Compose(s, w, id, steps[..k]).Err?
    ensures Compose(s, w, id, steps) == Compose(s, w, id, steps[..k])
    decreases |steps|
  {
    if k == |steps| {
      assert steps[..k] == steps;
    } else {
      assert steps[..|steps| - 1][..k] == steps[..k];
      ComposeStops(s, w, id, steps[..|steps| - 1], k);
    }
  }

  /** One step of the composition loop. */
  method ExpandStep(s: Store, w: World, id: int, d: Draft, st: Step) returns (r: Result<Draft>)
    requires Resolved(s)
    ensures r == AddStep(s, w, id, d, st)
  {
    hide Reaches, Visit, PinnedHops;
    if |st.id| > 24 || st.id !in w.tags || st.id in d.ids {
      return Err(Invalid);
    }
    var e := d.(ids := d.ids + {st.id});
    var count := 0;
    if st.node < 0 || st.path < 0 || st.line < 0 {
      return Err(Invalid);
    }
    if st.node > 0 { count := count + 1; }
    if st.path > 0 { count := count + 1; }
    if st.line > 0 { count := count + 1; }
    if count != 1 {
      return Err(Invalid);
    }
    var hops;
    if st.node > 0 {
      if !NodeStepOk(st) {
        return Err(Invalid);
      }
      hops := [Hop(Name(st.id), st.node, st.ingress, st.mode, st.backend)];
    } else if st.path > 0 {
      if !PathStepOk(st) {
        return Err(Invalid);
      }
      var cycle := Ancestor(s, SourceOf(st), id);
      if cycle {
        return Err(Cycle);
      }
      if SourceOf(st) !in s.revisions {
        return Err(NotFound);
      }
      var source := s.revisions[SourceOf(st)];
      if source.depth + 1 > e.depth {
        e := e.(depth := source.depth + 1);
      }
      if e.depth > MAX_DEPTH {
        return Err(TooDeep);
      }
      hops := Rekey(st.id, source.hops);
    } else {
      if !LineStepOk(st) {
        return Err(Invalid);
      }
      var pinned := PinLine(e.pins, w, st);
      if pinned.Err? {
        return Err(pinned.error);
      }
      e := e.(pins := e.pins[PinOf(st) := pinned.value]);
      hops := Rekey(st.id, pinned.value);
    }
    r := AddHops(e, w, hops);
    if r.Ok? && |r.value.hops| > MAX_HOPS {
      r := Err(TooLong);
    }
  }

  method ExpandPath(s: Store, w: World, id: int, steps: seq<Step>) returns (r: Result<Draft>)
    requires Resolved(s)
    ensures r == Compose(s, w, id, steps)
  {
    hide AddStep;
    var d := Draft({}, {}, s.pins, [], 1);
    for i := 0 to |steps|
      invariant Compose(s, w, id, steps[..i]) == Ok(d)
    {
      assert steps[..i + 1][..i] == steps[..i];
      var next := ExpandStep(s, w, id, d, steps[i]);
      if next.Err? {
        ComposeStops(s, w, id, steps, i + 1);
        return next;
      }
      d := next.value;
    }
    assert steps[..|steps|] == steps;
    r := Ok(d);
  }

  class PathStore {
    var paths: map<int, int>
    var revisions: map<RevId, Revision>
    var pins: map<Pin, seq<Hop>>
    var routes: set<RevId>
    var nextId: int

    ghost function State(): Store
      reads this
    {
      Store(paths, revisions, pins, routes, nextId)
    }

    ghost predicate Valid()
      reads this
    {
      Inv(State())
    }

    constructor ()
      ensures Valid() && State() == EMPTY
    {
      paths, revisions, pins, routes, nextId := map[], map[], map[], {}, 1;
      new;
      EmptyInv();
    }

    /** Save a path.  An error leaves the tables as they were. */
    method SaveForwardPath(w: World, id: int, version: int, steps: seq<Step>, texts: seq<string>) returns (saved: Result<RevId>)
      requires Valid() && |texts| == |steps|
      modifies this
      ensures Valid()
      ensures var r := Save(old(State()), w, id, version, steps, texts);
        match r
        case Ok(t) => State() == t && saved == Ok(Target(old(State()), id))
        case Err(e) => State() == old(State()) && saved == Err(e)
    {
      hide Compose, RevisionOk, Numbered, PinUsed;
      ghost var s0 := State();
      if Save(s0, w, id, version, steps, texts).Ok? {
        SaveOk(s0, w, id, version, steps, texts);
      }
      var s := Store(paths, revisions, pins, routes, nextId);
      var r, next;
      if id == 0 {
        r, next := RevId(nextId, 1), Named(steps, texts);
      } else {
        if id !in paths {
          return Err(NotFound);
        }
        if paths[id] != version {
          return Err(Conflict);
        }
        if RevId(id, version) !in revisions {
          return Err(NotFound);
        }
        r, next := RevId(id, version + 1), Named(KeepBackends(revisions[RevId(id, version)].steps, steps), texts);
      }
      if !(1 <= |next| <= MAX_HOPS) {
        return Err(Invalid);
      }
      var d := ExpandPath(s, w, r.path, next);
      if d.Err? {
        return Err(d.error);
      }
      if !DistinctKeys(d.value.hops) {
        return Err(Conflict);
      }
      revisions := revisions[r := Revision(next, d.value.hops, d.value.depth)];
      pins := d.value.pins;
      paths := paths[r.path := r.revision];
      if r.path >= nextId {
        nextId := r.path + 1;
      }
      saved := Ok(r);
    }

    /** Delete a path that nothing refers to. */
    method DeleteForwardPath(id: int, version: int) returns (failure: Option<Error>)
      requires Valid()
      modifies this
      ensures Valid()
      ensures match Delete(old(State()), id, version)
        case Ok(t) => State() == t && failure == None
        case Err(e) => State() == old(State()) && failure == Some(e)
    {
      hide RevisionOk, Numbered, PinUsed;
      if Delete(State(), id, version).Ok? {
        DeleteOk(State(), id, version);
      }
      if id !in paths {
        return Some(NotFound);
      }
      if paths[id] != version {
        return Some(Conflict);
      }
      if (exists r, i | r in revisions && 0 <= i < |revisions[r].steps| :: revisions[r].steps[i].path > 0 && revisions[r].steps[i].path == id)
         || (exists r | r in routes :: r.path == id) {
        return Some(InUse);
      }
      paths := paths - {id};
      revisions := map r | r in revisions && r.path != id :: revisions[r];
      pins := map p | p in pins && PinUsed(revisions, p) :: pins[p];
      failure := None;
    }
  }
}
