/** Exactly which compositions a save accepts, stated without the order in which the panel
    looks at them. */
module ForwardPathAcceptance {
  import opened Collections
  import opened ForwardPathModel
  import opened ForwardPathSafety

  // ----- what is asked of the steps and of the whole path -----------------------------------

  /** The hops a step brings along, read from the store and the live lines alone. */
  function StepHops(s: Store, w: World, st: Step): seq<Hop> {
    if st.node > 0 then [Hop(Name(st.id), st.node, st.ingress, st.mode, st.backend)]
    else if st.path > 0 then
      if SourceOf(st) in s.revisions then Rekey(st.id, s.revisions[SourceOf(st)].hops) else []
    else
      var hops := PinnedHops(s.pins, w, st);
      if hops.Ok? then Rekey(st.id, hops.value) else []
  }

  function AllHops(s: Store, w: World, steps: seq<Step>): seq<Hop> {
    if steps == [] then [] else AllHops(s, w, steps[..|steps| - 1]) + StepHops(s, w, steps[|steps| - 1])
  }

  predicate Served(w: World, h: Hop) {
    h.node in w.servers && (h.ingress.Some? ==> h.ingress.value in w.servers[h.node])
  }

  /** Every server is usable and none is visited twice. */
  ghost predicate Sound(w: World, hops: seq<Hop>) {
    DistinctNodes(hops) && forall i | 0 <= i < |hops| :: Served(w, hops[i])
  }

  ghost predicate Fits(w: World, hops: seq<Hop>) { Sound(w, hops) && |hops| <= 8 }

  /** A step by itself: one well formed source that exists, leads elsewhere and is not too deep. */
  ghost predicate StepAcceptable(s: Store, w: World, id: int, st: Step)
    requires Resolved(s)
  {
    && |st.id| <= 24 && st.id in w.tags
    && (|| (st.node > 0 && st.path == 0 && st.line == 0)
        || (st.node == 0 && st.path > 0 && st.line == 0)
        || (st.node == 0 && st.path == 0 && st.line > 0))
    && (st.node > 0 ==>
          && st.backend in {"", "relay", "realm", "nft"} && st.mode in {"", "default", "internal"}
          && st.revision == 0 && st.lineVersion == 0 && !st.landing)
    && (st.node == 0 ==> st.backend == "" && st.mode == "" && st.ingress == None)
    && (st.path > 0 ==>
          && st.revision >= 1 && st.lineVersion == 0 && !st.landing
          && SourceOf(st) in s.revisions && !Reaches(s, SourceOf(st), id) && s.revisions[SourceOf(st)].depth < 8)
    && (st.line > 0 ==> st.lineVersion >= 1 && st.revision == 0 && PinnedHops(s.pins, w, st).Ok?)
  }

  ghost predicate Acceptable(s: Store, w: World, id: int, steps: seq<Step>)
    requires Resolved(s)
  {
    && (forall i | 0 <= i < |steps| :: StepAcceptable(s, w, id, steps[i]))
    && DistinctIds(steps)
    && Fits(w, AllHops(s, w, steps))
  }

  // ----- a draft and the steps it was made from ------------------------------------------------

  /** Captures made on the way change no later answer. */
  ghost predicate PinsAgree(s: Store, w: World, d: Draft) {
    forall st :: PinnedHops(d.pins, w, st) == PinnedHops(s.pins, w, st)
  }

  ghost predicate Tracks(s: Store, w: World, steps: seq<Step>, d: Draft) {
    && d.ids == IdsOf(steps) && DistinctIds(steps)
    && d.hops == AllHops(s, w, steps) && d.nodes == NodesOf(d.hops) && Fits(w, d.hops)
    && d.depth <= MAX_DEPTH && PinsAgree(s, w, d)
  }

  lemma CaptureByPin(w: World, st: Step, other: Step)
    requires PinOf(st) == PinOf(other)
    ensures Capture(w, st) == Capture(w, other)
  {
  }

  lemma PinsAgreeOneMore(s: Store, w: World, d: Draft, st: Step)
    requires PinsAgree(s, w, d) && PinnedHops(d.pins, w, st).Ok?
    ensures PinsAgree(s, w, d.(pins := d.pins[PinOf(st) := PinnedHops(d.pins, w, st).value]))
  {
    var pins := d.pins[PinOf(st) := PinnedHops(d.pins, w, st).value];
    forall other
      ensures PinnedHops(pins, w, other) == PinnedHops(s.pins, w, other)
    {
      assert PinnedHops(d.pins, w, other) == PinnedHops(s.pins, w, other);
      if PinOf(other) == PinOf(st) {
        CaptureByPin(w, st, other);
      }
    }
  }

  lemma FitsPrefix(w: World, hops: seq<Hop>, more: seq<Hop>)
    requires Fits(w, hops + more)
    ensures Fits(w, hops)
  {
    assert forall i | 0 <= i < |hops| :: (hops + more)[i] == hops[i];
  }

  lemma SoundOneMore(w: World, hops: seq<Hop>, h: Hop)
    ensures Sound(w, hops + [h]) <==> Sound(w, hops) && Served(w, h) && h.node !in NodesOf(hops)
  {
    var all := hops + [h];
    assert all[|hops|] == h;
    assert forall i | 0 <= i < |hops| :: all[i] == hops[i];
    if Sound(w, hops) && Served(w, h) && h.node !in NodesOf(hops) {
      NodesOneMore(hops, h);
    }
    if h.node in NodesOf(hops) {
      var i :| 0 <= i < |hops| && hops[i].node == h.node;
      assert all[i].node == all[|hops|].node;
    }
  }

  /** Hops are accepted one by one exactly when they are acceptable together. */
  lemma {:induction false} VisitAccepts(d: Draft, w: World, hops: seq<Hop>)
    requires d.nodes == NodesOf(d.hops) && Sound(w, d.hops)
    ensures Visit(d, w, hops).Ok? <==> Sound(w, d.hops + hops)
  {
    if hops == [] {
      assert d.hops + hops == d.hops;
    } else {
      hide Sound, NodesOf;
      var n := |hops| - 1;
      VisitAccepts(d, w, hops[..n]);
      assert d.hops + hops == d.hops + hops[..n] + [hops[n]];
      SoundOneMore(w, d.hops + hops[..n], hops[n]);
      if Visit(d, w, hops[..n]).Ok? {
        SoundDistinct(w, d.hops);
        VisitAppends(d, w, hops[..n]);
      }
    }
  }

  lemma SoundDistinct(w: World, hops: seq<Hop>)
    requires Sound(w, hops)
    ensures DistinctNodes(hops)
  {
  }

  /** What a step does before its hops are visited, and when it gets that far. */
  lemma StepGetsThrough(s: Store, w: World, id: int, steps: seq<Step>, d: Draft, st: Step)
    requires Resolved(s) && Tracks(s, w, steps, d)
    ensures StepAcceptable(s, w, id, st) && st.id !in d.ids ==>
      var (d1, hops) := Source(s, w, d, st);
      var next := Visit(d1, w, hops);
      && d1.depth <= MAX_DEPTH && hops == StepHops(s, w, st) && d1 == d.(ids := d.ids + {st.id}, depth := d1.depth, pins := d1.pins)
      && AddStep(s, w, id, d, st) == (if next.Ok? && |next.value.hops| > MAX_HOPS then Err(TooLong) else next)
    ensures !StepAcceptable(s, w, id, st) || st.id in d.ids ==> AddStep(s, w, id, d, st).Err?
  {
    hide Resolved, Reaches, Visit, Rekey, Capture, PinnedHops, Fits, AllHops, NodesOf, IdsOf, DistinctIds;
    assert PinnedHops(d.pins, w, st) == PinnedHops(s.pins, w, st);
  }

  lemma SourcePinsAgree(s: Store, w: World, d: Draft, st: Step)
    requires PinsAgree(s, w, d)
    ensures PinsAgree(s, w, Source(s, w, d, st).0)
  {
    hide PinnedHops, Rekey;
    if PinnedHops(d.pins, w, st).Ok? {
      PinsAgreeOneMore(s, w, d, st);
    }
  }

  lemma AddStepAccepts(s: Store, w: World, id: int, steps: seq<Step>, d: Draft, st: Step)
    requires Resolved(s) && Tracks(s, w, steps, d)
    ensures var all := AllHops(s, w, steps) + StepHops(s, w, st);
      && (AddStep(s, w, id, d, st).Ok? <==> StepAcceptable(s, w, id, st) && st.id !in IdsOf(steps) && Fits(w, all))
    ensures AddStep(s, w, id, d, st).Ok? ==> Tracks(s, w, steps + [st], AddStep(s, w, id, d, st).value)
  {
    hide Resolved, AddStep, StepAcceptable, Visit, Source, AllHops, StepHops, NodesOf, IdsOf, PinsAgree, DistinctNodes, Served, DistinctIds;
    StepGetsThrough(s, w, id, steps, d, st);
    if StepAcceptable(s, w, id, st) && st.id !in d.ids {
      var (d1, hops) := Source(s, w, d, st);
      VisitAccepts(d1, w, hops);
      if Visit(d1, w, hops).Ok? {
        VisitAppends(d1, w, hops);
        SourcePinsAgree(s, w, d, st);
        PinsOnly(s, w, d1, Visit(d1, w, hops).value);
        IdsOneMore(steps, st);
        AllHopsOneMore(s, w, steps, st);
      }
    }
  }

  lemma PinsOnly(s: Store, w: World, d: Draft, e: Draft)
    requires PinsAgree(s, w, d) && e.pins == d.pins
    ensures PinsAgree(s, w, e)
  {
  }

  lemma AllHopsOneMore(s: Store, w: World, steps: seq<Step>, st: Step)
    ensures AllHops(s, w, steps + [st]) == AllHops(s, w, steps) + StepHops(s, w, st)
  {
    assert (steps + [st])[..|steps|] == steps;
  }

  lemma AcceptableOneMore(s: Store, w: World, id: int, steps: seq<Step>, st: Step)
    requires Resolved(s)
    ensures Acceptable(s, w, id, steps + [st]) <==>
      && Acceptable(s, w, id, steps) && StepAcceptable(s, w, id, st) && st.id !in IdsOf(steps)
      && Fits(w, AllHops(s, w, steps) + StepHops(s, w, st))
  {
    hide Resolved, StepAcceptable, Fits, AllHops, StepHops;
    var all := steps + [st];
    assert all[|steps|] == st;
    assert forall i | 0 <= i < |steps| :: all[i] == steps[i];
    AllHopsOneMore(s, w, steps, st);
    if Fits(w, AllHops(s, w, all)) {
      FitsPrefix(w, AllHops(s, w, steps), StepHops(s, w, st));
    }
    if DistinctIds(steps) && st.id !in IdsOf(steps) {
      IdsOneMore(steps, st);
    }
  }

  /** The composition walk accepts a list of steps exactly when it is acceptable as a whole. */
  lemma {:induction false} ComposeAcceptsExactly(s: Store, w: World, id: int, steps: seq<Step>)
    requires Resolved(s)
    ensures Compose(s, w, id, steps).Ok? <==> Acceptable(s, w, id, steps)
    ensures Compose(s, w, id, steps).Ok? ==> Tracks(s, w, steps, Compose(s, w, id, steps).value)
  {
    if steps != [] {
      hide Resolved, AddStep, Acceptable, Tracks, StepAcceptable, Fits, AllHops, StepHops, IdsOf;
      var n := |steps| - 1;
      ComposeAcceptsExactly(s, w, id, steps[..n]);
      assert steps[..n] + [steps[n]] == steps;
      AcceptableOneMore(s, w, id, steps[..n], steps[n]);
      if Compose(s, w, id, steps[..n]).Ok? {
        AddStepAccepts(s, w, id, steps[..n], Compose(s, w, id, steps[..n]).value, steps[n]);
      }
    }
  }

  /** The steps a save stores: missing identifiers drawn, earlier backends kept. */
  function Stored(s: Store, id: int, version: int, steps: seq<Step>, texts: seq<string>): seq<Step>
    requires |texts| == |steps|
  {
    if id != 0 && RevId(id, version) in s.revisions
    then Named(KeepBackends(s.revisions[RevId(id, version)].steps, steps), texts) else Named(steps, texts)
  }

  /** A save succeeds exactly when the caller saw the current version and the steps, one to
      eight of them, are acceptable with distinct hop keys; no other refusal exists. */
  lemma SaveAcceptsExactly(s: Store, w: World, id: int, version: int, steps: seq<Step>, texts: seq<string>)
    requires Inv(s) && |texts| == |steps|
    ensures var stored := Stored(s, id, version, steps, texts);
      Save(s, w, id, version, steps, texts).Ok? <==>
        && (id == 0 || (id in s.paths && s.paths[id] == version))
        && 1 <= |steps| <= 8
        && Acceptable(s, w, if id == 0 then s.nextId else id, stored)
        && DistinctKeys(AllHops(s, w, stored))
  {
    hide Resolved, Compose, Acceptable, RevisionOk, Fits, AllHops, DistinctKeys, PinUsed, PinsAgree, NodesOf, IdsOf;
    ComposeAcceptsExactly(s, w, if id == 0 then s.nextId else id, Stored(s, id, version, steps, texts));
    assert id in s.paths ==> RevId(id, s.paths[id]) in s.revisions;
  }
}
