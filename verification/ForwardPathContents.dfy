/** What is in a saved path, hop by hop, and exactly when a path or a line may go. */
module ForwardPathContents {
  import opened Collections
  import opened ForwardPathModel
  import opened ForwardPathSafety
  import opened ForwardPathAcceptance

  // ----- captured lines -----------------------------------------------------------------------

  /** The hops of a line as it stands: the one member of every group, in order of the groups, with the
      backend the wire knows (an explicit relay is the empty one), and the landing last if asked for. */
  ghost predicate CapturedFrom(l: LiveLine, landing: bool, hops: seq<Hop>) {
    && |hops| == |l.groups| + (if landing then 1 else 0)
    && (forall i | 0 <= i < |l.groups| :: |l.groups[i]| == 1 && MemberHop(l, l.groups[i][0], hops[i]))
    && (landing ==> l.landing.Some? && LandingHop(l.landing.value, hops[|l.groups|]))
  }

  predicate LandingHop(l: Hop, h: Hop) { h == Hop(Name("landing"), l.node, l.ingress, l.mode, "") }

  predicate MemberHop(l: LiveLine, m: Member, h: Hop) {
    && h.key == Name(m.id) && h.node == m.node && h.ingress == m.ingress && h.mode == m.mode
    && h.backend == if l.backend == "relay" then "" else l.backend
  }

  /** The line can be captured: it is its own, at that version, linear, with a known backend. */
  predicate Capturable(w: World, line: int, version: int, landing: bool) {
    && line !in w.owned && line in w.lines && w.lines[line].version == version
    && w.lines[line].backend in {"", "relay", "realm", "nft"}
    && (forall i | 0 <= i < |w.lines[line].groups| :: |w.lines[line].groups[i]| == 1)
    && (landing ==> w.lines[line].landing.Some?)
  }

  lemma {:induction false} LineHopsAt(l: LiveLine, n: nat, i: nat)
    requires i < n <= |l.groups| && forall k | 0 <= k < n :: |l.groups[k]| == 1
    ensures |LineHops(l, n)| == n && MemberHop(l, l.groups[i][0], LineHops(l, n)[i])
  {
    if i < n - 1 {
      LineHopsAt(l, n - 1, i);
    } else {
      LineHopsCount(l, n - 1);
    }
  }

  lemma {:induction false} LineHopsCount(l: LiveLine, n: nat)
    requires n <= |l.groups| && forall k | 0 <= k < n :: |l.groups[k]| == 1
    ensures |LineHops(l, n)| == n
  {
    if n > 0 {
      LineHopsCount(l, n - 1);
    }
  }

  /** A pin resolves exactly when the line is not barred and the pin is held or the line can be
      captured; a held pin keeps its hops, a new one takes the line's in order. */
  lemma PinnedExactly(pins: map<Pin, seq<Hop>>, w: World, st: Step)
    ensures var hops, held := PinnedHops(pins, w, st), Pin(st.line, st.lineVersion, st.landing) in pins;
      && (hops.Ok? <==> st.line !in w.barred && (held || Capturable(w, st.line, st.lineVersion, st.landing)))
      && (hops.Ok? && held ==> hops.value == pins[Pin(st.line, st.lineVersion, st.landing)])
      && (hops.Ok? && !held ==> CapturedFrom(w.lines[st.line], st.landing, hops.value))
  {
    if PinnedHops(pins, w, st).Ok? && PinOf(st) !in pins {
      var l := w.lines[st.line];
      LineHopsCount(l, |l.groups|);
      forall i | 0 <= i < |l.groups|
        ensures MemberHop(l, l.groups[i][0], PinnedHops(pins, w, st).value[i])
      {
        LineHopsAt(l, |l.groups|, i);
      }
    }
  }

  // ----- saved paths ---------------------------------------------------------------------------

  /** `part` is what step `st` brings: one hop for a server, the hops of the pinned revision or the
      pinned line otherwise, each under the step's name and unchanged but for that. */
  ghost predicate BroughtBy(s: Store, w: World, st: Step, part: seq<Hop>) {
    && (st.node > 0 ==> part == [Hop(Name(st.id), st.node, st.ingress, st.mode, st.backend)])
    && (st.path > 0 ==> RevId(st.path, st.revision) in s.revisions && Renamed(st.id, s.revisions[RevId(st.path, st.revision)].hops, part))
    && (st.line > 0 ==>
          if Pin(st.line, st.lineVersion, st.landing) in s.pins then Renamed(st.id, s.pins[Pin(st.line, st.lineVersion, st.landing)], part)
          else st.line in w.lines && exists hops :: CapturedFrom(w.lines[st.line], st.landing, hops) && Renamed(st.id, hops, part))
  }

  ghost predicate Renamed(step: string, hops: seq<Hop>, part: seq<Hop>) {
    |part| == |hops| && forall i | 0 <= i < |hops| :: part[i] == hops[i].(key := Under(step, hops[i].key))
  }

  lemma StepHopsBrought(s: Store, w: World, id: int, st: Step)
    requires Resolved(s) && StepAcceptable(s, w, id, st)
    ensures BroughtBy(s, w, st, StepHops(s, w, st))
  {
    hide Resolved, Reaches, PinnedHops, CapturedFrom;
    if st.line > 0 {
      PinnedExactly(s.pins, w, st);
    }
  }

  /** The place of step `k` in the list of all hops. */
  lemma {:induction false} Block(s: Store, w: World, steps: seq<Step>, k: nat)
    requires k < |steps|
    ensures |AllHops(s, w, steps[..k])| + |StepHops(s, w, steps[k])| <= |AllHops(s, w, steps)|
    ensures var from := |AllHops(s, w, steps[..k])|;
      AllHops(s, w, steps)[from..from + |StepHops(s, w, steps[k])|] == StepHops(s, w, steps[k])
  {
    hide StepHops;
    var n := |steps| - 1;
    if k < n {
      Block(s, w, steps[..n], k);
      assert steps[..n][..k] == steps[..k];
      var from, rest := |AllHops(s, w, steps[..k])|, AllHops(s, w, steps[..n]);
      assert AllHops(s, w, steps)[..|rest|] == rest;
      var to := from + |StepHops(s, w, steps[k])|;
      assert AllHops(s, w, steps)[from..to] == rest[from..to];
    }
  }

  /** `hops` is cut into consecutive parts, one per step, each brought by its step. */
  ghost predicate InOrder(s: Store, w: World, steps: seq<Step>, hops: seq<Hop>, cuts: seq<nat>) {
    && |cuts| == |steps| + 1 && cuts[0] == 0 && cuts[|steps|] == |hops|
    && forall k: nat | k < |steps| :: PartOf(s, w, steps, hops, cuts, k)
  }

  /** Part `k` lies between two cuts and is brought by step `k`. */
  ghost predicate PartOf(s: Store, w: World, steps: seq<Step>, hops: seq<Hop>, cuts: seq<nat>, k: nat)
    requires k < |steps| == |cuts| - 1
  {
    cuts[k] <= cuts[k + 1] <= |hops| && BroughtBy(s, w, steps[k], hops[cuts[k]..cuts[k + 1]])
  }

  lemma AllHopsInOrder(s: Store, w: World, id: int, steps: seq<Step>) returns (cuts: seq<nat>)
    requires Resolved(s) && forall i | 0 <= i < |steps| :: StepAcceptable(s, w, id, steps[i])
    ensures InOrder(s, w, steps, AllHops(s, w, steps), cuts)
  {
    hide Resolved, StepAcceptable, BroughtBy, StepHops;
    var n := |steps|;
    var hops := AllHops(s, w, steps);
    cuts := seq(n + 1, k requires 0 <= k <= n => |AllHops(s, w, steps[..k])|);
    assert steps[..n] == steps && steps[..0] == [];
    forall k: nat | k < n
      ensures PartOf(s, w, steps, hops, cuts, k)
    {
      Block(s, w, steps, k);
      assert steps[..k + 1] == steps[..k] + [steps[k]];
      AllHopsOneMore(s, w, steps[..k], steps[k]);
      StepHopsBrought(s, w, id, steps[k]);
    }
  }

  /** A saved path holds, in the order of its steps, what every step brings. */
  lemma SavedHopsInOrder(s: Store, w: World, id: int, version: int, steps: seq<Step>, texts: seq<string>) returns (cuts: seq<nat>)
    requires Inv(s) && |texts| == |steps| && Save(s, w, id, version, steps, texts).Ok?
    ensures var t, stored := Save(s, w, id, version, steps, texts).value, Stored(s, id, version, steps, texts);
      && Target(s, id) in t.revisions && t.revisions[Target(s, id)].steps == stored
      && InOrder(s, w, stored, t.revisions[Target(s, id)].hops, cuts)
  {
    hide Resolved, Compose, RevisionOk, PinUsed, InOrder, StepAcceptable, Fits, AllHops, DistinctKeys, PinsAgree, NodesOf, IdsOf, Named, KeepBackends;
    var path := if id == 0 then s.nextId else id;
    var stored := Stored(s, id, version, steps, texts);
    ComposeAcceptsExactly(s, w, path, stored);
    cuts := AllHopsInOrder(s, w, path, stored);
  }

  // ----- kept backends ---------------------------------------------------------------------------

  lemma {:induction false} PriorIs(before: seq<Step>, i: nat)
    requires i < |before| && DistinctIds(before)
    ensures Prior(before, before[i].id) == Some(before[i])
  {
    var n := |before| - 1;
    if i < n {
      assert before[i].id != before[n].id;
      PriorIs(before[..n], i);
    }
  }

  lemma {:induction false} NoPrior(before: seq<Step>, id: string)
    requires forall i | 0 <= i < |before| :: before[i].id != id
    ensures Prior(before, id) == None
  {
    if before != [] {
      NoPrior(before[..|before| - 1], id);
    }
  }

  /** Saving changes nothing of a step but the backend, and that only of a server's step without
      one, whose backend is that of the step it replaces. */
  lemma BackendKeptExactly(before: seq<Step>, st: Step)
    requires DistinctIds(before)
    ensures var kept := KeepBackend(before, st);
      && kept == st.(backend := kept.backend)
      && (kept.backend != st.backend ==> st.backend == "" && st.node > 0)
      && forall i | 0 <= i < |before| && before[i].id == st.id != "" && st.backend == "" && before[i].node == st.node > 0
                    && st.path == 0 && st.line == 0 && before[i].path == 0 && before[i].line == 0 ::
           kept.backend == before[i].backend
  {
    forall i | 0 <= i < |before| && before[i].id == st.id
      ensures Prior(before, st.id) == Some(before[i])
    {
      PriorIs(before, i);
    }
  }

  // ----- leaving --------------------------------------------------------------------------------------

  /** A path is deleted exactly when the caller saw its version and no step of any path and no
      route refers to it; otherwise the refusal says which. */
  lemma DeleteExactly(s: Store, id: int, version: int)
    ensures var used := (exists r, i | r in s.revisions && 0 <= i < |s.revisions[r].steps| :: s.revisions[r].steps[i].path == id && id > 0)
                     || (exists r | r in s.routes :: r.path == id);
      && (Delete(s, id, version).Ok? <==> id in s.paths && s.paths[id] == version && !used)
      && (Delete(s, id, version) == Err(NotFound) <==> id !in s.paths)
      && (Delete(s, id, version) == Err(Conflict) <==> id in s.paths && s.paths[id] != version)
      && (Delete(s, id, version) == Err(InUse) <==> id in s.paths && s.paths[id] == version && used)
  {
    assert Referenced(s, id) <==> exists r, i | r in s.revisions && 0 <= i < |s.revisions[r].steps| :: s.revisions[r].steps[i].path == id && id > 0;
  }

  /** A line may go exactly when no step of any path refers to it. */
  lemma ForgetExactly(s: Store, line: int)
    ensures ForgetLine(s, line).Err? <==>
      line > 0 && exists r, i | r in s.revisions && 0 <= i < |s.revisions[r].steps| :: s.revisions[r].steps[i].line == line
  {
    assert LineReferenced(s, line) <==> exists r, i | r in s.revisions && 0 <= i < |s.revisions[r].steps| :: s.revisions[r].steps[i].line == line && line > 0;
  }
}
