/** Every reachable path store keeps its flattened hops, references and bounds. */
module ForwardPathSafety {
  import opened ForwardPathModel

  ghost predicate DistinctNodes(hops: seq<Hop>) {
    forall i, j | 0 <= i < j < |hops| :: hops[i].node != hops[j].node
  }

  ghost predicate DistinctIds(steps: seq<Step>) {
    forall i, j | 0 <= i < j < |steps| :: steps[i].id != steps[j].id
  }

  ghost predicate OneSourceEach(steps: seq<Step>) {
    forall i | 0 <= i < |steps| :: OneSource(steps[i])
  }

  /** No step leads back to the path `id`. */
  ghost predicate AvoidsPath(s: Store, steps: seq<Step>, id: int)
    requires Resolved(s)
  {
    forall i | 0 <= i < |steps| && steps[i].path > 0 :: !Reaches(s, SourceOf(steps[i]), id)
  }

  ghost predicate ShapeOk(s: Store, id: int, steps: seq<Step>, hops: seq<Hop>, depth: int)
    requires Resolved(s)
  {
    && OneSourceEach(steps) && DistinctIds(steps) && AvoidsPath(s, steps, id)
    && |hops| <= 8 && DistinctNodes(hops)
    && depth == 1 + DeepestSource(s, steps) <= 8
  }

  ghost predicate RevisionOk(s: Store, r: RevId)
    requires Resolved(s) && r in s.revisions
  {
    var v := s.revisions[r];
    && 1 <= |v.steps| <= 8
    && v.hops == Expansion(s, v.steps, v.depth)
    && DistinctKeys(v.hops)
    && ShapeOk(s, r.path, v.steps, v.hops, v.depth)
  }

  /** Revisions are numbered from one to the current version; identifiers are never reused. */
  ghost predicate Numbered(s: Store) {
    && (forall r :: r in s.revisions <==> r.path in s.paths && 1 <= r.revision <= s.paths[r.path])
    && (forall id | id in s.paths :: 1 <= id < s.nextId && 1 <= s.paths[id])
    && s.nextId >= 1
  }

  ghost predicate Inv(s: Store) {
    && Resolved(s) && Numbered(s)
    && (forall r | r in s.revisions :: RevisionOk(s, r))
    && (forall p | p in s.pins :: PinUsed(s.revisions, p))
    && s.routes <= s.revisions.Keys
  }

  // ----- one store inside another --------------------------------------------------------

  ghost predicate Inside(small: Store, big: Store) {
    && (forall r | r in small.revisions :: r in big.revisions && big.revisions[r] == small.revisions[r])
    && (forall p | p in small.pins :: p in big.pins && big.pins[p] == small.pins[p])
  }

  lemma StepResolvedInside(small: Store, big: Store, st: Step, depth: int, depth': int)
    requires Inside(small, big) && StepResolved(small, st, depth) && depth <= depth'
    ensures StepResolved(big, st, depth')
  {
  }

  lemma StepsResolvedInside(small: Store, big: Store, steps: seq<Step>, depth: int, depth': int)
    requires Inside(small, big) && StepsResolved(small, steps, depth) && depth <= depth'
    ensures StepsResolved(big, steps, depth')
  {
    hide Inside, StepResolved;
    forall i | 0 <= i < |steps|
      ensures StepResolved(big, steps[i], depth')
    {
      StepResolvedInside(small, big, steps[i], depth, depth');
    }
  }

  /** What a step expands to is settled by what it refers to. */
  lemma {:induction false} StepExpansionInside(small: Store, big: Store, st: Step, depth: int, depth': int)
    requires Inside(small, big) && Resolved(small) && Resolved(big)
    requires 0 <= depth && 0 <= depth' && StepResolved(small, st, depth) && StepResolved(big, st, depth')
    ensures StepExpansion(big, st, depth') == StepExpansion(small, st, depth)
    decreases depth, 0, 0
  {
    if st.node <= 0 && st.path > 0 {
      var v := small.revisions[SourceOf(st)];
      ExpansionInside(small, big, v.steps, v.depth, v.depth);
    }
  }

  lemma {:induction false} ExpansionInside(small: Store, big: Store, steps: seq<Step>, depth: int, depth': int)
    requires Inside(small, big) && Resolved(small) && Resolved(big)
    requires 0 <= depth && 0 <= depth' && StepsResolved(small, steps, depth) && StepsResolved(big, steps, depth')
    ensures Expansion(big, steps, depth') == Expansion(small, steps, depth)
    decreases depth, 1, |steps|
  {
    hide Inside, Resolved, StepResolved;
    if steps != [] {
      var n := |steps| - 1;
      ExpansionInside(small, big, steps[..n], depth, depth');
      StepExpansionInside(small, big, steps[n], depth, depth');
    }
  }

  lemma {:induction false} ReachesInside(small: Store, big: Store, from: RevId, wanted: int)
    requires Inside(small, big) && Resolved(small) && Resolved(big) && from in small.revisions
    ensures Reaches(big, from, wanted) <==> Reaches(small, from, wanted)
    decreases small.revisions[from].depth
  {
    var v := small.revisions[from];
    forall i | 0 <= i < |v.steps| && v.steps[i].path > 0
      ensures StepResolved(small, v.steps[i], v.depth) && StepResolved(big, v.steps[i], v.depth)
      ensures Reaches(big, SourceOf(v.steps[i]), wanted) <==> Reaches(small, SourceOf(v.steps[i]), wanted)
    {
      assert StepResolved(small, v.steps[i], v.depth);
      ReachesInside(small, big, SourceOf(v.steps[i]), wanted);
    }
  }

  lemma {:induction false} DeepestInside(small: Store, big: Store, steps: seq<Step>, depth: int)
    requires Inside(small, big) && StepsResolved(small, steps, depth)
    ensures DeepestSource(big, steps) == DeepestSource(small, steps)
  {
    if steps != [] {
      var n := |steps| - 1;
      assert StepResolved(small, steps[n], depth);
      DeepestInside(small, big, steps[..n], depth);
    }
  }

  lemma AvoidsInside(small: Store, big: Store, steps: seq<Step>, depth: int, id: int)
    requires Inside(small, big) && Resolved(small) && Resolved(big) && StepsResolved(small, steps, depth)
    ensures AvoidsPath(big, steps, id) <==> AvoidsPath(small, steps, id)
  {
    hide Resolved, Inside, Reaches;
    forall i | 0 <= i < |steps| && steps[i].path > 0
      ensures Reaches(big, SourceOf(steps[i]), id) <==> Reaches(small, SourceOf(steps[i]), id)
    {
      assert StepResolved(small, steps[i], depth);
      ReachesInside(small, big, SourceOf(steps[i]), id);
    }
  }

  /** Growing or shrinking the store around a revision changes nothing about it. */
  lemma RevisionInside(small: Store, big: Store, r: RevId)
    requires Inside(small, big) && Resolved(small) && Resolved(big) && r in small.revisions && r in big.revisions
    ensures RevisionOk(big, r) <==> RevisionOk(small, r)
    ensures StepsResolved(small, small.revisions[r].steps, small.revisions[r].depth) && small.revisions[r].depth >= 1
    ensures StepsResolved(big, small.revisions[r].steps, small.revisions[r].depth)
    ensures Expansion(big, small.revisions[r].steps, small.revisions[r].depth) == Expansion(small, small.revisions[r].steps, small.revisions[r].depth)
  {
    hide Reaches, DistinctKeys, DistinctNodes, DistinctIds, OneSourceEach, AvoidsPath, StepsResolved;
    var v := small.revisions[r];
    StepsResolvedInside(small, big, v.steps, v.depth, v.depth);
    ExpansionInside(small, big, v.steps, v.depth, v.depth);
    DeepestInside(small, big, v.steps, v.depth);
    AvoidsInside(small, big, v.steps, v.depth, r.path);
  }

  // ----- a composition in progress --------------------------------------------------------

  function NodesOf(hops: seq<Hop>): set<int> { set i | 0 <= i < |hops| :: hops[i].node }

  function IdsOf(steps: seq<Step>): set<string> { set i | 0 <= i < |steps| :: steps[i].id }

  /** The store with the captures made so far. */
  function With(s: Store, d: Draft): Store { s.(pins := d.pins) }

  ghost predicate PinsGrow(s: Store, d: Draft) {
    forall p | p in s.pins :: p in d.pins && d.pins[p] == s.pins[p]
  }

  ghost predicate NewPinsUsed(s: Store, steps: seq<Step>, d: Draft) {
    forall p | p in d.pins && p !in s.pins :: exists i | 0 <= i < |steps| :: steps[i].line > 0 && PinOf(steps[i]) == p
  }

  ghost predicate HopsKnown(s: Store)
    requires Resolved(s)
  {
    forall r | r in s.revisions :: s.revisions[r].hops == Expansion(s, s.revisions[r].steps, s.revisions[r].depth)
  }

  lemma WithResolved(s: Store, d: Draft)
    requires Resolved(s) && PinsGrow(s, d)
    ensures Resolved(With(s, d)) && Inside(s, With(s, d))
  {
    hide StepResolved;
    var t := With(s, d);
    assert Inside(s, t);
    forall r | r in t.revisions
      ensures StepsResolved(t, t.revisions[r].steps, t.revisions[r].depth)
    {
      StepsResolvedInside(s, t, s.revisions[r].steps, s.revisions[r].depth, s.revisions[r].depth);
    }
  }

  ghost predicate DraftOk(s: Store, id: int, steps: seq<Step>, d: Draft)
    requires Resolved(s)
  {
    && PinsGrow(s, d) && Resolved(With(s, d))
    && d.depth >= 1 && StepsResolved(With(s, d), steps, d.depth)
    && d.hops == Expansion(With(s, d), steps, d.depth)
    && ShapeOk(With(s, d), id, steps, d.hops, d.depth)
    && d.nodes == NodesOf(d.hops) && d.ids == IdsOf(steps)
    && NewPinsUsed(s, steps, d)
  }

  /** Appending hops keeps the servers of a path distinct. */
  lemma {:induction false} VisitAppends(d: Draft, w: World, hops: seq<Hop>)
    requires Visit(d, w, hops).Ok? && d.nodes == NodesOf(d.hops) && DistinctNodes(d.hops)
    ensures var e := Visit(d, w, hops).value;
      && e == d.(nodes := e.nodes, hops := d.hops + hops)
      && e.nodes == NodesOf(e.hops) && DistinctNodes(e.hops)
  {
    if hops == [] {
      assert d.hops + hops == d.hops;
    } else {
      var n := |hops| - 1;
      VisitAppends(d, w, hops[..n]);
      var before, e := Visit(d, w, hops[..n]).value, Visit(d, w, hops).value;
      assert e.hops == before.hops + [hops[n]];
      assert d.hops + hops == before.hops + [hops[n]];
      NodesOneMore(before.hops, hops[n]);
    }
  }

  lemma NodesOneMore(hops: seq<Hop>, h: Hop)
    requires DistinctNodes(hops) && h.node !in NodesOf(hops)
    ensures NodesOf(hops + [h]) == NodesOf(hops) + {h.node} && DistinctNodes(hops + [h])
  {
    var all := hops + [h];
    assert all[|hops|] == h;
    assert forall i | 0 <= i < |hops| :: all[i] == hops[i] && hops[i].node in NodesOf(hops);
    assert NodesOf(all) <= NodesOf(hops) + {h.node};
    forall x | x in NodesOf(hops)
      ensures x in NodesOf(all)
    {
      var i :| 0 <= i < |hops| && hops[i].node == x;
      assert all[i].node == x;
    }
  }

  lemma IdsOneMore(steps: seq<Step>, st: Step)
    requires DistinctIds(steps) && st.id !in IdsOf(steps)
    ensures IdsOf(steps + [st]) == IdsOf(steps) + {st.id} && DistinctIds(steps + [st])
  {
    var all := steps + [st];
    assert all[|steps|] == st;
    assert forall i | 0 <= i < |steps| :: all[i] == steps[i] && steps[i].id in IdsOf(steps);
    forall x | x in IdsOf(steps)
      ensures x in IdsOf(all)
    {
      var i :| 0 <= i < |steps| && steps[i].id == x;
      assert all[i].id == x;
    }
  }

  /** The draft before the hops of a step are visited, and those hops. */
  ghost function Source(s: Store, w: World, d: Draft, st: Step): (Draft, seq<Hop>) {
    var d := d.(ids := d.ids + {st.id});
    if st.node > 0 then (d, [Hop(Name(st.id), st.node, st.ingress, st.mode, st.backend)])
    else if st.path > 0 && SourceOf(st) in s.revisions then
      (Deeper(d, s.revisions[SourceOf(st)].depth + 1), Rekey(st.id, s.revisions[SourceOf(st)].hops))
    else if PinnedHops(d.pins, w, st).Ok? then
      (d.(pins := d.pins[PinOf(st) := PinnedHops(d.pins, w, st).value]), Rekey(st.id, PinnedHops(d.pins, w, st).value))
    else (d, [])
  }

  lemma AddStepSource(s: Store, w: World, id: int, d: Draft, st: Step)
    requires Resolved(s) && AddStep(s, w, id, d, st).Ok?
    ensures var (d1, hops) := Source(s, w, d, st);
      && Visit(d1, w, hops).Ok? && AddStep(s, w, id, d, st) == Visit(d1, w, hops)
      && st.id !in d.ids && OneSource(st) && |Visit(d1, w, hops).value.hops| <= MAX_HOPS
      && (st.path > 0 ==> SourceOf(st) in s.revisions && !Reaches(s, SourceOf(st), id) && d1.depth <= MAX_DEPTH)
      && (st.line > 0 ==> PinnedHops(d.pins, w, st).Ok?)
  {
    hide Resolved, Reaches, Visit, PinnedHops, Rekey;
  }

  lemma SourceGrows(s: Store, w: World, d: Draft, st: Step)
    requires PinsGrow(s, d)
    ensures var (d1, _) := Source(s, w, d, st);
      && PinsGrow(s, d1) && Inside(With(s, d), With(s, d1))
      && d1.depth >= d.depth && d1.nodes == d.nodes && d1.hops == d.hops && d1.ids == d.ids + {st.id}
  {
    hide Rekey, Capture;
  }

  /** The hops visited for a step are its expansion. */
  lemma SourceExpands(s: Store, w: World, id: int, d: Draft, st: Step)
    requires Resolved(s) && HopsKnown(s) && PinsGrow(s, d) && AddStep(s, w, id, d, st).Ok? && d.depth >= 1
    ensures var (d1, hops) := Source(s, w, d, st);
      && PinsGrow(s, d1) && Resolved(With(s, d1)) && StepResolved(With(s, d1), st, d1.depth)
      && hops == StepExpansion(With(s, d1), st, d1.depth)
  {
    hide Visit, Reaches;
    AddStepSource(s, w, id, d, st);
    SourceGrows(s, w, d, st);
    var (d1, hops) := Source(s, w, d, st);
    WithResolved(s, d1);
    if st.path > 0 {
      var v := s.revisions[SourceOf(st)];
      ExpansionInside(s, With(s, d1), v.steps, v.depth, v.depth);
    }
  }

  lemma SourceDepthKept(s: Store, w: World, id: int, steps: seq<Step>, d: Draft, st: Step)
    requires Resolved(s) && PinsGrow(s, d) && AddStep(s, w, id, d, st).Ok?
    requires StepsResolved(With(s, d), steps, d.depth) && 1 <= d.depth == 1 + DeepestSource(With(s, d), steps) <= MAX_DEPTH
    ensures var (d1, _) := Source(s, w, d, st);
      d1.depth == 1 + DeepestSource(With(s, d1), steps + [st]) <= MAX_DEPTH
  {
    hide Visit, Reaches, Resolved, AddStep, Source, StepResolved, DeepestSource, SourceDepth, Inside, PinsGrow;
    AddStepSource(s, w, id, d, st);
    SourceGrows(s, w, d, st);
    var (d1, _) := Source(s, w, d, st);
    DeepestInside(With(s, d), With(s, d1), steps, d.depth);
    DeepestOneMore(With(s, d1), steps, st);
    DeeperBySource(s, w, d, st);
  }

  lemma DeepestOneMore(s: Store, steps: seq<Step>, st: Step)
    ensures DeepestSource(s, steps + [st]) ==
      if SourceDepth(s, st) > DeepestSource(s, steps) then SourceDepth(s, st) else DeepestSource(s, steps)
  {
    hide SourceDepth;
    assert (steps + [st])[..|steps|] == steps;
  }

  lemma DeeperBySource(s: Store, w: World, d: Draft, st: Step)
    requires st.path > 0 ==> SourceOf(st) in s.revisions
    requires d.depth >= 1 && OneSource(st)
    ensures var (d1, _) := Source(s, w, d, st);
      && d1.depth == (if SourceDepth(With(s, d1), st) + 1 > d.depth then SourceDepth(With(s, d1), st) + 1 else d.depth)
      && (st.path <= 0 ==> d1.depth == d.depth)
  {
    hide PinnedHops, Rekey;
  }

  lemma AddStepOk(s: Store, w: World, id: int, steps: seq<Step>, d: Draft, st: Step)
    requires Resolved(s) && HopsKnown(s) && DraftOk(s, id, steps, d) && AddStep(s, w, id, d, st).Ok?
    ensures DraftOk(s, id, steps + [st], AddStep(s, w, id, d, st).value)
  {
    hide Visit, Reaches, Resolved, AddStep, StepResolved, Expansion, DistinctIds, DistinctNodes, IdsOf, NodesOf, DeepestSource, HopsKnown, Inside, AvoidsPath, Source;
    var (d1, hops) := Source(s, w, d, st);
    var e := AddStep(s, w, id, d, st).value;
    var all := steps + [st];
    AddStepSource(s, w, id, d, st);
    SourceGrows(s, w, d, st);
    SourceExpands(s, w, id, d, st);
    VisitAppends(d1, w, hops);
    var t := With(s, d1);
    assert With(s, e) == t;
    StepsResolvedInside(With(s, d), t, steps, d.depth, d1.depth);
    ExpansionInside(With(s, d), t, steps, d.depth, d1.depth);
    ExpansionAppends(t, steps, st, d1.depth);
    IdsOneMore(steps, st);
    SourceDepthKept(s, w, id, steps, d, st);
    AvoidsOneMore(s, w, id, steps, d, st);
    NewPinsOneMore(s, w, id, steps, d, st);
    assert OneSourceEach(all);
    assert PinsGrow(s, e);
  }

  lemma ExpansionAppends(s: Store, steps: seq<Step>, st: Step, depth: int)
    requires Resolved(s) && depth >= 0 && StepsResolved(s, steps, depth) && StepResolved(s, st, depth)
    ensures StepsResolved(s, steps + [st], depth)
    ensures Expansion(s, steps + [st], depth) == Expansion(s, steps, depth) + StepExpansion(s, st, depth)
  {
    hide Resolved, StepResolved, StepExpansion;
    assert (steps + [st])[..|steps|] == steps;
  }

  lemma AvoidsOneMore(s: Store, w: World, id: int, steps: seq<Step>, d: Draft, st: Step)
    requires Resolved(s) && DraftOk(s, id, steps, d) && AddStep(s, w, id, d, st).Ok?
    ensures var (d1, _) := Source(s, w, d, st);
      Resolved(With(s, d1)) && AvoidsPath(With(s, d1), steps + [st], id)
  {
    hide Visit, Reaches, Resolved, StepResolved, Expansion, Inside, AddStep, Source, NewPinsUsed;
    AddStepSource(s, w, id, d, st);
    SourceGrows(s, w, d, st);
    var (d1, _) := Source(s, w, d, st);
    WithResolved(s, d1);
    AvoidsInside(With(s, d), With(s, d1), steps, d.depth, id);
    if st.path > 0 {
      ReachesInside(s, With(s, d1), SourceOf(st), id);
    }
  }

  lemma NewPinsOneMore(s: Store, w: World, id: int, steps: seq<Step>, d: Draft, st: Step)
    requires Resolved(s) && NewPinsUsed(s, steps, d) && AddStep(s, w, id, d, st).Ok?
    ensures NewPinsUsed(s, steps + [st], Source(s, w, d, st).0)
  {
    hide Visit, Reaches, Resolved, AddStep, Rekey, PinnedHops;
    AddStepSource(s, w, id, d, st);
    var (d1, _) := Source(s, w, d, st);
    var all := steps + [st];
    assert all[|steps|] == st;
    forall p | p in d1.pins && p !in s.pins
      ensures exists i | 0 <= i < |all| :: all[i].line > 0 && PinOf(all[i]) == p
    {
      if p in d.pins {
        var i :| 0 <= i < |steps| && steps[i].line > 0 && PinOf(steps[i]) == p;
        assert all[i] == steps[i];
      }
    }
  }

  /** A successful composition is the full expansion of its steps, within all bounds. */
  lemma {:induction false} ComposeOk(s: Store, w: World, id: int, steps: seq<Step>)
    requires Resolved(s) && HopsKnown(s) && Compose(s, w, id, steps).Ok?
    ensures DraftOk(s, id, steps, Compose(s, w, id, steps).value)
  {
    hide DraftOk, AddStep, Resolved, HopsKnown;
    if steps == [] {
      EmptyDraftOk(s, id);
    } else {
      var n := |steps| - 1;
      ComposeOk(s, w, id, steps[..n]);
      AddStepOk(s, w, id, steps[..n], Compose(s, w, id, steps[..n]).value, steps[n]);
      assert steps[..n] + [steps[n]] == steps;
    }
  }

  lemma EmptyDraftOk(s: Store, id: int)
    requires Resolved(s)
    ensures DraftOk(s, id, [], Draft({}, {}, s.pins, [], 1))
  {
    assert With(s, Draft({}, {}, s.pins, [], 1)) == s;
  }

  // ----- transactions ------------------------------------------------------------------------

  lemma InsertResolved(s: Store, r: RevId, steps: seq<Step>, d: Draft)
    requires Resolved(s) && DraftOk(s, r.path, steps, d) && r !in s.revisions
    ensures var t := Insert(s, r, steps, d);
      Resolved(t) && Inside(s, t) && Inside(With(s, d), t)
  {
    hide ShapeOk, Expansion, NewPinsUsed, IdsOf, NodesOf, StepResolved;
    var t := Insert(s, r, steps, d);
    WithResolved(s, d);
    assert Inside(With(s, d), t);
    forall q | q in t.revisions
      ensures t.revisions[q].depth >= 1 && StepsResolved(t, t.revisions[q].steps, t.revisions[q].depth)
    {
      if q == r {
        StepsResolvedInside(With(s, d), t, steps, d.depth, d.depth);
      } else {
        StepsResolvedInside(s, t, s.revisions[q].steps, s.revisions[q].depth, s.revisions[q].depth);
      }
    }
  }

  lemma InsertedRevisionOk(s: Store, r: RevId, steps: seq<Step>, d: Draft)
    requires Resolved(s) && DraftOk(s, r.path, steps, d) && r !in s.revisions
    requires 1 <= |steps| <= MAX_HOPS && DistinctKeys(d.hops)
    requires Resolved(Insert(s, r, steps, d))
    ensures RevisionOk(Insert(s, r, steps, d), r)
  {
    hide Expansion, NewPinsUsed, IdsOf, NodesOf, StepResolved, Resolved, DistinctKeys, DistinctIds, DistinctNodes, OneSourceEach, AvoidsPath, Inside, DeepestSource, Reaches;
    var t := Insert(s, r, steps, d);
    InsertResolved(s, r, steps, d);
    StepsResolvedInside(With(s, d), t, steps, d.depth, d.depth);
    ExpansionInside(With(s, d), t, steps, d.depth, d.depth);
    DeepestInside(With(s, d), t, steps, d.depth);
    AvoidsInside(With(s, d), t, steps, d.depth, r.path);
  }

  /** The revision follows the numbering: a new path, or the next revision of an old one. */
  ghost predicate NextNumber(s: Store, r: RevId) {
    (r.path == s.nextId && r.revision == 1) || (r.path in s.paths && r.revision == s.paths[r.path] + 1)
  }

  lemma InsertNumbered(s: Store, r: RevId, steps: seq<Step>, d: Draft)
    requires Numbered(s) && NextNumber(s, r)
    ensures r !in s.revisions && Numbered(Insert(s, r, steps, d))
  {
    var t := Insert(s, r, steps, d);
    assert s.nextId !in s.paths;
    forall q
      ensures q in t.revisions <==> q.path in t.paths && 1 <= q.revision <= t.paths[q.path]
    {
      if q.path == r.path && q != r {
        assert q in t.revisions <==> q in s.revisions;
      }
    }
  }

  lemma InsertPinsUsed(s: Store, r: RevId, steps: seq<Step>, d: Draft)
    requires r !in s.revisions && NewPinsUsed(s, steps, d)
    requires forall p | p in s.pins :: PinUsed(s.revisions, p)
    ensures forall p | p in d.pins :: PinUsed(Insert(s, r, steps, d).revisions, p)
  {
    var t := Insert(s, r, steps, d);
    forall p | p in d.pins
      ensures PinUsed(t.revisions, p)
    {
      if p in s.pins {
        var q, i :| q in s.revisions && 0 <= i < |s.revisions[q].steps| && s.revisions[q].steps[i].line > 0 && PinOf(s.revisions[q].steps[i]) == p;
        assert t.revisions[q].steps[i] == s.revisions[q].steps[i];
      } else {
        var i :| 0 <= i < |steps| && steps[i].line > 0 && PinOf(steps[i]) == p;
        assert t.revisions[r].steps[i] == steps[i];
      }
    }
  }

  lemma InsertOk(s: Store, r: RevId, steps: seq<Step>, d: Draft)
    requires Inv(s) && DraftOk(s, r.path, steps, d) && NextNumber(s, r)
    requires 1 <= |steps| <= MAX_HOPS && DistinctKeys(d.hops)
    ensures Inv(Insert(s, r, steps, d)) && Inside(s, Insert(s, r, steps, d))
  {
    hide Numbered, RevisionOk, NextNumber, DistinctKeys, PinUsed, Resolved, DraftOk, Inside;
    var t := Insert(s, r, steps, d);
    InsertNumbered(s, r, steps, d);
    InsertResolved(s, r, steps, d);
    InsertedRevisionOk(s, r, steps, d);
    DraftPins(s, r.path, steps, d);
    InsertPinsUsed(s, r, steps, d);
    forall q | q in t.revisions
      ensures RevisionOk(t, q)
    {
      if q != r {
        RevisionInside(s, t, q);
      }
    }
  }

  lemma DraftPins(s: Store, id: int, steps: seq<Step>, d: Draft)
    requires Resolved(s) && DraftOk(s, id, steps, d)
    ensures NewPinsUsed(s, steps, d)
  {
    hide ShapeOk, Expansion;
  }

  lemma InvHopsKnown(s: Store)
    requires Inv(s)
    ensures Resolved(s) && HopsKnown(s)
  {
    hide Numbered, PinUsed, ShapeOk, DistinctKeys, Expansion;
    forall r | r in s.revisions
      ensures s.revisions[r].hops == Expansion(s, s.revisions[r].steps, s.revisions[r].depth)
    {
      assert RevisionOk(s, r);
    }
  }

  lemma SaveAsOk(s: Store, w: World, r: RevId, steps: seq<Step>)
    requires Inv(s) && NextNumber(s, r) && SaveAs(s, w, r, steps).Ok?
    ensures var t := SaveAs(s, w, r, steps).value;
      && Inv(t) && Inside(s, t) && r in t.revisions && t.revisions[r].steps == steps
      && t.revisions.Keys == s.revisions.Keys + {r} && t.routes == s.routes
  {
    hide Inv, Compose, DraftOk, NextNumber, Inside, Resolved, DistinctKeys;
    InvHopsKnown(s);
    ComposeOk(s, w, r.path, steps);
    InsertOk(s, r, steps, Compose(s, w, r.path, steps).value);
  }

  /** Which revision a save creates. */
  function Target(s: Store, id: int): RevId {
    if id == 0 then RevId(s.nextId, 1) else RevId(id, (if id in s.paths then s.paths[id] else 0) + 1)
  }

  /** A save adds one revision and changes nothing that was stored. */
  lemma SaveOk(s: Store, w: World, id: int, version: int, steps: seq<Step>, texts: seq<string>)
    requires Inv(s) && |texts| == |steps| && Save(s, w, id, version, steps, texts).Ok?
    ensures var t := Save(s, w, id, version, steps, texts).value;
      && Inv(t) && Inside(s, t) && t.routes == s.routes
      && Target(s, id) !in s.revisions && t.revisions.Keys == s.revisions.Keys + {Target(s, id)}
  {
    hide SaveAs, RevisionOk, PinUsed, Named, KeepBackends;
    var r := Target(s, id);
    assert NextNumber(s, r);
    if id == 0 {
      SaveAsOk(s, w, r, Named(steps, texts));
    } else {
      SaveAsOk(s, w, r, Named(KeepBackends(s.revisions[RevId(id, version)].steps, steps), texts));
    }
  }

  lemma RemoveResolved(s: Store, id: int)
    requires Resolved(s) && !Referenced(s, id)
    ensures Resolved(Remove(s, id)) && Inside(Remove(s, id), s)
  {
    var t := Remove(s, id);
    forall r | r in t.revisions
      ensures StepsResolved(t, t.revisions[r].steps, t.revisions[r].depth)
    {
      var v := s.revisions[r];
      forall i | 0 <= i < |v.steps|
        ensures StepResolved(t, v.steps[i], v.depth)
      {
        assert StepResolved(s, v.steps[i], v.depth);
        if v.steps[i].line > 0 {
          assert t.revisions[r].steps[i] == v.steps[i];
          assert PinUsed(t.revisions, PinOf(v.steps[i]));
        }
      }
    }
  }

  /** A permitted delete removes one path and leaves every other revision as it was. */
  lemma DeleteOk(s: Store, id: int, version: int)
    requires Inv(s) && Delete(s, id, version).Ok?
    ensures var t := Delete(s, id, version).value;
      && Inv(t) && Inside(t, s) && t.routes == s.routes
      && forall r :: r in t.revisions <==> r in s.revisions && r.path != id
  {
    hide RevisionOk, PinUsed, Resolved, Referenced, Inside;
    var t := Remove(s, id);
    RemoveResolved(s, id);
    forall r | r in t.revisions
      ensures RevisionOk(t, r)
    {
      RevisionInside(t, s, r);
    }
  }

  /** Deleting a line that no revision refers to leaves the captures alone: there are none of it. */
  lemma ForgetLineOk(s: Store, line: int)
    requires Inv(s) && ForgetLine(s, line).Ok?
    ensures ForgetLine(s, line).value == s
  {
    hide RevisionOk, Resolved, Numbered;
    forall p | p in s.pins
      ensures p.line != line
    {
      assert PinUsed(s.revisions, p);
    }
    assert (map p | p in s.pins && p.line != line :: s.pins[p]) == s.pins;
  }

  // ----- runs ----------------------------------------------------------------------------------

  const EMPTY := Store(map[], map[], map[], {}, 1)

  /** One committed transaction. */
  datatype Tx =
    | SaveTx(world: World, id: int, version: int, steps: seq<Step>, texts: seq<string>)
    | DeleteTx(id: int, version: int)
    | RouteTx(revision: RevId)
    | UnrouteTx(revision: RevId)
    | ForgetLineTx(line: int)

  ghost predicate Commits(s: Store, tx: Tx, t: Store)
    requires Resolved(s)
  {
    match tx
    case SaveTx(w, id, version, steps, texts) => |texts| == |steps| && Save(s, w, id, version, steps, texts) == Ok(t)
    case DeleteTx(id, version) => Delete(s, id, version) == Ok(t)
    case RouteTx(r) => r in s.revisions && t == s.(routes := s.routes + {r})
    case UnrouteTx(r) => t == s.(routes := s.routes - {r})
    case ForgetLineTx(line) => ForgetLine(s, line) == Ok(t)
  }

  ghost predicate Run(states: seq<Store>, txs: seq<Tx>) {
    && |states| == |txs| + 1 && states[0] == EMPTY
    && forall i | 0 <= i < |txs| :: Resolved(states[i]) && Commits(states[i], txs[i], states[i + 1])
  }

  /** What every transaction keeps: the invariant, and every revision that is still there. */
  ghost predicate Keeps(s: Store, t: Store) {
    && s.nextId <= t.nextId
    && (forall r | r in s.revisions && r in t.revisions :: t.revisions[r] == s.revisions[r])
    && (forall r | r in t.revisions && r !in s.revisions :: r.path >= s.nextId || (r.path in s.paths && r.revision > s.paths[r.path]))
    && (forall id | id in s.paths && id in t.paths :: s.paths[id] <= t.paths[id])
    && (forall id | id in t.paths && id !in s.paths :: id >= s.nextId)
  }

  lemma CommitsOk(s: Store, tx: Tx, t: Store)
    requires Inv(s) && Commits(s, tx, t)
    ensures Inv(t) && Keeps(s, t)
  {
    hide RevisionOk, PinUsed, Resolved, Save, Delete, ForgetLine, ShapeOk;
    match tx
    case SaveTx(w, id, version, steps, texts) =>
      SaveOk(s, w, id, version, steps, texts);
      SaveTables(s, w, id, version, steps, texts);
    case DeleteTx(id, version) =>
      DeleteOk(s, id, version);
      DeleteTables(s, id, version);
    case RouteTx(r) => RoutesIrrelevant(s, t);
    case UnrouteTx(r) => RoutesIrrelevant(s, t);
    case ForgetLineTx(line) => ForgetLineOk(s, line);
  }

  lemma SaveTables(s: Store, w: World, id: int, version: int, steps: seq<Step>, texts: seq<string>)
    requires Inv(s) && |texts| == |steps| && Save(s, w, id, version, steps, texts).Ok?
    ensures var t := Save(s, w, id, version, steps, texts).value;
      && (id == 0 || id in s.paths)
      && t.paths == s.paths[Target(s, id).path := Target(s, id).revision] && s.nextId <= t.nextId
  {
    hide RevisionOk, PinUsed, Named, KeepBackends, Compose;
  }

  lemma DeleteTables(s: Store, id: int, version: int)
    requires Delete(s, id, version).Ok?
    ensures var t := Delete(s, id, version).value; t.paths == s.paths - {id} && s.nextId == t.nextId
  {
  }

  lemma RoutesIrrelevant(s: Store, t: Store)
    requires Inv(s) && t == s.(routes := t.routes) && t.routes <= s.revisions.Keys
    ensures Inv(t)
  {
    hide RevisionOk, PinUsed;
    assert Resolved(t) && Inside(s, t);
    forall r | r in t.revisions
      ensures RevisionOk(t, r)
    {
      RevisionInside(s, t, r);
    }
  }

  /** The invariant holds in every reachable store. */
  lemma {:induction false} RunInv(states: seq<Store>, txs: seq<Tx>, i: nat)
    requires Run(states, txs) && i < |states|
    ensures Inv(states[i])
  {
    hide Inv, Commits, Resolved;
    if i == 0 {
      EmptyInv();
    } else {
      RunInv(states, txs, i - 1);
      CommitsOk(states[i - 1], txs[i - 1], states[i]);
    }
  }

  lemma EmptyInv()
    ensures Inv(EMPTY)
  {
  }

  /** A stored revision, while its path lives, never changes; a deleted one never returns. */
  lemma {:induction false} RevisionsAreForever(states: seq<Store>, txs: seq<Tx>, i: nat, j: nat, r: RevId)
    requires Run(states, txs) && i <= j < |states| && r in states[i].revisions
    ensures r.path < states[j].nextId
    ensures r.path in states[j].paths ==> r in states[j].revisions && states[j].revisions[r] == states[i].revisions[r]
    ensures r.path !in states[j].paths ==> r !in states[j].revisions
    decreases j
  {
    hide Commits, Resolved, RevisionOk, PinUsed;
    RunInv(states, txs, j);
    if i < j {
      RunInv(states, txs, j - 1);
      CommitsOk(states[j - 1], txs[j - 1], states[j]);
      RevisionsAreForever(states, txs, i, j - 1, r);
    }
  }

  /** In every reachable store the flattened hops of a revision are the recursive expansion of its
      steps, and later saves and permitted deletes leave that expansion as it is. */
  lemma HopsAreTheExpansion(states: seq<Store>, txs: seq<Tx>, i: nat, j: nat, r: RevId)
    requires Run(states, txs) && i <= j < |states| && r in states[i].revisions && r in states[j].revisions
    ensures Resolved(states[i]) && Resolved(states[j])
    ensures var v := states[i].revisions[r];
      && v.depth >= 0 && StepsResolved(states[i], v.steps, v.depth) && StepsResolved(states[j], v.steps, v.depth)
      && v.hops == Expansion(states[i], v.steps, v.depth) == Expansion(states[j], v.steps, v.depth)
  {
    hide Commits, ShapeOk, PinUsed, Expansion;
    RunInv(states, txs, i);
    RunInv(states, txs, j);
    RevisionsAreForever(states, txs, i, j, r);
    assert RevisionOk(states[i], r) && RevisionOk(states[j], r);
  }

  /** In every reachable store no path occurs below itself, nothing dangles, and depth, hops and
      captures are within their bounds. */
  lemma PathsAreSound(states: seq<Store>, txs: seq<Tx>, i: nat, r: RevId)
    requires Run(states, txs) && i < |states| && r in states[i].revisions
    ensures var s, v := states[i], states[i].revisions[r];
      && Resolved(s)
      && (forall k | 0 <= k < |v.steps| && v.steps[k].path > 0 :: SourceOf(v.steps[k]) in s.revisions && !Reaches(s, SourceOf(v.steps[k]), r.path))
      && (forall k | 0 <= k < |v.steps| && v.steps[k].line > 0 :: PinOf(v.steps[k]) in s.pins)
      && v.depth == 1 + DeepestSource(s, v.steps) <= 8
      && |v.hops| <= 8 && DistinctNodes(v.hops) && DistinctKeys(v.hops)
      && (forall q | q in s.routes :: q in s.revisions)
      && (forall p | p in s.pins :: PinUsed(s.revisions, p))
  {
    hide Commits, PinUsed, Expansion, Reaches, DistinctKeys, DistinctNodes, DeepestSource;
    RunInv(states, txs, i);
    var s, v := states[i], states[i].revisions[r];
    assert RevisionOk(s, r);
    forall k | 0 <= k < |v.steps|
      ensures StepResolved(s, v.steps[k], v.depth)
    {
    }
  }
}
