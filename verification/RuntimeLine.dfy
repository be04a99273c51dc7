/** The status of a relay line: what the memoised walk computes, and what it means. */
module RuntimeLine {
  import opened Collections
  import opened RuntimeStatus
  import opened RuntimeConfirmation

  datatype TargetReport = TargetReport(target: string, health: string, protocol: string)

  datatype ForwardReport = ForwardReport(health: string, protocol: string, targets: seq<TargetReport>)

  /** A listener of a line: its node's status and report, the targets compiled for it, if any,
      and what the node reported about it, if anything. */
  datatype Member = Member(node: Status, report: Report, targets: Option<seq<string>>, forward: Option<ForwardReport>)

  datatype Line = Line(members: map<string, Member>, adjacency: map<string, seq<string>>, landing: Status, udp: bool)

  const NO_ROUTE := Plain(Unknown, "no_route", {})

  function Children(g: Line, id: string): seq<string> {
    if id in g.adjacency then g.adjacency[id] else []
  }

  /** The walk reaches this listener's edges. */
  predicate Live(m: Member) {
    m.node.state == Healthy && m.targets.Some? && m.forward.Some?
  }

  /** What the walk answers for a listener whose edges it does not reach. */
  function Stopped(m: Member): Status
    requires !Live(m)
  {
    if m.node.state != Healthy then m.node
    else if m.targets.None? then Plain(Unknown, "config_pending", {})
    else Observed(Unknown, "no_data", m.report.observed, {"forward_tcp"})
  }

  // ----- edges -----------------------------------------------------------------------

  function KeyOf(m: Member, id: string, j: nat): Key { Forward(m.report.node, id, j) }

  /** The health and probe protocol reported for target `j`. */
  function Probe(m: Member, udp: bool, j: nat): (string, string)
    requires Live(m) && j < |m.targets.value|
  {
    var f, targets := m.forward.value, m.targets.value;
    var (health, protocol) :=
      if |targets| == 1 then (f.health, f.protocol)
      else if j < |f.targets| && f.targets[j].target == targets[j] then (f.targets[j].health, f.targets[j].protocol)
      else ("unknown", "none");
    (health, if udp && protocol != "backend" then "none" else protocol)
  }

  function NegativeStatus(t: Table, key: Key, r: Report, reason: string, at: int): (Table, Status) {
    var (u, confirmed) := Negative(t, key, r, at);
    (u, Observed(if confirmed then Down else Unknown, reason, r.observed, {"forward_tcp"}))
  }

  /** One forwarding edge, judged by its probe and the confirmation table. */
  function Edge(t: Table, key: Key, r: Report, health: string, protocol: string, at: int): (Table, Status) {
    if protocol == "backend" && health == "down" then NegativeStatus(t, key, r, "component_failure", at)
    else if protocol != "tcp" then (Clear(t, key), Observed(Unknown, "unsupported", r.observed, {}))
    else if health == "down" then NegativeStatus(t, key, r, "no_route", at)
    else if health == "up" then (Clear(t, key), Observed(Healthy, "healthy", r.observed, {"forward_tcp"}))
    else (Clear(t, key), Observed(Unknown, "no_data", r.observed, {"forward_tcp"}))
  }

  function EdgeOf(g: Line, t: Table, id: string, j: nat, at: int): (Table, Status)
    requires id in g.members && Live(g.members[id]) && j < |g.members[id].targets.value|
  {
    var m := g.members[id];
    Edge(t, KeyOf(m, id, j), m.report, Probe(m, g.udp, j).0, Probe(m, g.udp, j).1, at)
  }

  function Edges(g: Line, t: Table, id: string, at: int): (es: seq<Status>)
    requires id in g.members && Live(g.members[id])
    ensures |es| == |g.members[id].targets.value|
  {
    seq(|g.members[id].targets.value|, j requires 0 <= j < |g.members[id].targets.value| => EdgeOf(g, t, id, j, at).1)
  }

  // ----- the meaning: node by node and path by path -----------------------------------

  /** `rank` falls along every edge. */
  ghost predicate Ranked(g: Line, rank: string -> nat) {
    forall id, k | id in g.adjacency && 0 <= k < |g.adjacency[id]| :: rank(g.adjacency[id][k]) < rank(id)
  }

  function InSeries(edges: seq<Status>, kids: seq<Status>): (parts: seq<Status>)
    requires |edges| == |kids|
    ensures |parts| == |edges|
  {
    seq(|edges|, j requires 0 <= j < |edges| => Series([edges[j], kids[j]]))
  }

  /** The status of a listener: alternatives over its targets, each in series with what follows. */
  ghost function Eval(g: Line, rank: string -> nat, t: Table, id: string, at: int): Status
    requires Ranked(g, rank)
    decreases rank(id), 1, 0
  {
    if id !in g.members then NO_ROUTE
    else if !Live(g.members[id]) then Stopped(g.members[id])
    else
      var kids := if Children(g, id) == [] then [g.landing] else EvalAll(g, rank, t, Children(g, id), rank(id), at);
      var edges := Edges(g, t, id, at);
      if |edges| != |kids| then NO_ROUTE else Alternatives(InSeries(edges, kids))
  }

  ghost function EvalAll(g: Line, rank: string -> nat, t: Table, ids: seq<string>, bound: nat, at: int): (ss: seq<Status>)
    requires Ranked(g, rank) && forall k | 0 <= k < |ids| :: rank(ids[k]) < bound
    ensures |ss| == |ids|
    decreases bound, 0, |ids|
  {
    if ids == [] then []
    else EvalAll(g, rank, t, ids[..|ids| - 1], bound, at) + [Eval(g, rank, t, ids[|ids| - 1], at)]
  }

  /** A complete path: its edges and landing, or its edges up to where it stops. */
  type Path = seq<Status>

  function Prepend(e: Status, ps: seq<Path>): (qs: seq<Path>)
    ensures |qs| == |ps|
  {
    seq(|ps|, k requires 0 <= k < |ps| => [e] + ps[k])
  }

  /** Every way on through each edge. */
  function Through(edges: seq<Status>, onward: seq<seq<Path>>): seq<Path>
    requires |edges| == |onward|
  {
    if edges == [] then []
    else
      var n := |edges| - 1;
      Through(edges[..n], onward[..n]) + Prepend(edges[n], onward[n])
  }

  /** All complete paths from a listener, one by one. */
  ghost function Paths(g: Line, rank: string -> nat, t: Table, id: string, at: int): seq<Path>
    requires Ranked(g, rank)
    decreases rank(id), 1, 0
  {
    if id !in g.members then [[NO_ROUTE]]
    else if !Live(g.members[id]) then [[Stopped(g.members[id])]]
    else
      var onward := if Children(g, id) == [] then [[[g.landing]]] else PathsAll(g, rank, t, Children(g, id), rank(id), at);
      var edges := Edges(g, t, id, at);
      if |edges| != |onward| then [[NO_ROUTE]] else Through(edges, onward)
  }

  ghost function PathsAll(g: Line, rank: string -> nat, t: Table, ids: seq<string>, bound: nat, at: int): (pss: seq<seq<Path>>)
    requires Ranked(g, rank) && forall k | 0 <= k < |ids| :: rank(ids[k]) < bound
    ensures |pss| == |ids|
    decreases bound, 0, |ids|
  {
    if ids == [] then []
    else PathsAll(g, rank, t, ids[..|ids| - 1], bound, at) + [Paths(g, rank, t, ids[|ids| - 1], at)]
  }

  function Totals(ps: seq<Path>): (ss: seq<Status>)
    ensures |ss| == |ps|
  {
    seq(|ps|, k requires 0 <= k < |ps| => Series(ps[k]))
  }

  /** `s` is the summary of the paths: all healthy, some usable, some unknown or all down, with
      all the evidence, and when usable as old as the oldest observation on a usable path. */
  ghost predicate Summarizes(s: Status, ps: seq<Path>) {
    && ps != []
    && s.state == Verdict(Totals(ps))
    && s.evidence == AllEvidence(Totals(ps))
    && (Usable(s.state) ==> s.observed == Oldest(Totals(ps), USABLE))
  }

  // ----- lists of statuses under concatenation ------------------------------------------

  lemma {:induction false} WorstCons(e: Status, p: seq<Status>)
    ensures Worst([e] + p) == if Rank(e.state) >= Rank(Worst(p)) then e.state else Worst(p)
  {
    if p == [] {
      assert ([e] + p)[..0] == [];
    } else {
      assert ([e] + p)[..|p|] == [e] + p[..|p| - 1];
      WorstCons(e, p[..|p| - 1]);
    }
  }

  lemma {:induction false} EvidenceConcat(xs: seq<Status>, ys: seq<Status>)
    ensures AllEvidence(xs + ys) == AllEvidence(xs) + AllEvidence(ys)
  {
    if ys == [] {
      assert xs + ys == xs;
    } else {
      assert (xs + ys)[..|xs + ys| - 1] == xs + ys[..|ys| - 1];
      EvidenceConcat(xs, ys[..|ys| - 1]);
    }
  }

  lemma {:induction false} OldestConcat(xs: seq<Status>, ys: seq<Status>, states: set<State>)
    ensures Oldest(xs + ys, states) == Older(Oldest(xs, states), Oldest(ys, states))
  {
    if ys == [] {
      assert xs + ys == xs;
    } else {
      assert (xs + ys)[..|xs + ys| - 1] == xs + ys[..|ys| - 1];
      OldestConcat(xs, ys[..|ys| - 1], states);
    }
  }

  lemma SomeInConcat(xs: seq<Status>, ys: seq<Status>, states: set<State>)
    ensures SomeIn(xs + ys, states) <==> SomeIn(xs, states) || SomeIn(ys, states)
  {
    if SomeIn(xs, states) {
      var k :| 0 <= k < |xs| && xs[k].state in states;
      assert (xs + ys)[k].state in states;
    }
    if SomeIn(ys, states) {
      var k :| 0 <= k < |ys| && ys[k].state in states;
      assert (xs + ys)[|xs| + k].state in states;
    }
    if SomeIn(xs + ys, states) {
      var k :| 0 <= k < |xs + ys| && (xs + ys)[k].state in states;
      assert if k < |xs| then xs[k].state in states else ys[k - |xs|].state in states;
    }
  }

  lemma TotalsConcat(ps: seq<Path>, qs: seq<Path>)
    ensures Totals(ps + qs) == Totals(ps) + Totals(qs)
  {
  }

  lemma InAny(s: State)
    ensures s in ANY
    ensures s in USABLE || s in {Degraded, Unknown, Down}
  {
    match s
    case Healthy => case Degraded => case Unknown => case Down =>
  }

  lemma SeriesOne(s: Status)
    ensures var one := Series([s]); one.state == s.state && one.evidence == s.evidence && one.observed == s.observed
  {
    InAny(s.state);
    assert [s][..0] == [];
    assert Oldest([s], ANY) == Older(None, s.observed);
    assert s.state == Down ==> Oldest([s], {Down}) == Older(None, s.observed);
    assert AllEvidence([s]) == {} + s.evidence;
  }

  // ----- an edge in front -----------------------------------------------------------------

  lemma SeriesCons(e: Status, p: Path)
    ensures var s, c := Series([e] + p), Series(p);
      && s.state == (if Rank(e.state) >= Rank(c.state) then e.state else c.state)
      && s.evidence == e.evidence + c.evidence
      && (Usable(s.state) ==> s.observed == Older(e.observed, c.observed))
  {
    WorstCons(e, p);
    EvidenceConcat([e], p);
    InAny(e.state);
    assert [e][..0] == [];
    OldestConcat([e], p, ANY);
    assert Oldest([e], ANY) == Older(None, e.observed);
  }

  lemma SeriesPair(e: Status, c: Status)
    ensures var s := Series([e, c]);
      && s.state == (if Rank(e.state) >= Rank(c.state) then e.state else c.state)
      && s.evidence == e.evidence + c.evidence
      && (Usable(s.state) ==> s.observed == Older(e.observed, c.observed))
  {
    SeriesCons(e, [c]);
    assert [e] + [c] == [e, c];
    SeriesOne(c);
  }

  lemma PrependTotals(e: Status, ps: seq<Path>, k: nat)
    requires k < |ps|
    ensures var s, c := Totals(Prepend(e, ps))[k], Totals(ps)[k];
      && s.state == (if Rank(e.state) >= Rank(c.state) then e.state else c.state)
      && s.evidence == e.evidence + c.evidence
      && (Usable(s.state) ==> s.observed == Older(e.observed, c.observed))
  {
    SeriesCons(e, ps[k]);
  }

  lemma PrependSomeIn(e: Status, ps: seq<Path>, states: set<State>)
    ensures SomeIn(Totals(Prepend(e, ps)), states) <==>
      exists k | 0 <= k < |ps| :: (if Rank(e.state) >= Rank(Totals(ps)[k].state) then e.state else Totals(ps)[k].state) in states
  {
    forall k | 0 <= k < |ps|
      ensures Totals(Prepend(e, ps))[k].state == if Rank(e.state) >= Rank(Totals(ps)[k].state) then e.state else Totals(ps)[k].state
    {
      PrependTotals(e, ps, k);
    }
  }

  lemma PrependVerdict(e: Status, ps: seq<Path>)
    requires ps != []
    ensures var v := Verdict(Totals(ps));
      Verdict(Totals(Prepend(e, ps))) == if Rank(e.state) >= Rank(v) then e.state else v
  {
    hide Series, Totals, Prepend;
    var ts := Totals(ps);
    PrependSomeIn(e, ps, USABLE);
    PrependSomeIn(e, ps, {Degraded, Unknown, Down});
    PrependSomeIn(e, ps, {Unknown});
    InAny(ts[0].state);
  }

  lemma {:induction false} PrependEvidence(e: Status, ps: seq<Path>)
    requires ps != []
    ensures AllEvidence(Totals(Prepend(e, ps))) == e.evidence + AllEvidence(Totals(ps))
  {
    var n := |ps| - 1;
    PrependTotals(e, ps, n);
    assert Totals(Prepend(e, ps))[..n] == Totals(Prepend(e, ps[..n]));
    assert Totals(ps)[..n] == Totals(ps[..n]);
    if n > 0 {
      PrependEvidence(e, ps[..n]);
    }
  }

  /** With a usable edge in front, the usable paths are the same and no younger than the edge. */
  lemma {:induction false} PrependOldest(e: Status, ps: seq<Path>)
    requires Usable(e.state)
    ensures var ts := Totals(ps);
      Oldest(Totals(Prepend(e, ps)), USABLE) == if SomeIn(ts, USABLE) then Older(e.observed, Oldest(ts, USABLE)) else None
  {
    if ps == [] {
    } else {
      var n := |ps| - 1;
      PrependOldest(e, ps[..n]);
      PrependTotals(e, ps, n);
      assert Totals(Prepend(e, ps))[..n] == Totals(Prepend(e, ps[..n]));
      assert Totals(ps)[..n] == Totals(ps[..n]);
      assert Totals(ps) == Totals(ps)[..n + 1];
      SomeInOneMore(Totals(ps), n, USABLE);
      if !SomeIn(Totals(ps[..n]), USABLE) {
        NoneUsable(Totals(ps[..n]));
      }
    }
  }

  lemma {:induction false} NoneUsable(ts: seq<Status>)
    requires !SomeIn(ts, USABLE)
    ensures Oldest(ts, USABLE) == None
  {
    if ts != [] {
      SomeInOneMore(ts, |ts| - 1, USABLE);
      assert ts[..|ts|] == ts;
      NoneUsable(ts[..|ts| - 1]);
    }
  }

  lemma PrependSummarizes(e: Status, c: Status, ps: seq<Path>)
    requires Summarizes(c, ps)
    ensures Summarizes(Series([e, c]), Prepend(e, ps))
  {
    hide Series, Totals, Prepend, AllEvidence, Oldest;
    SeriesPair(e, c);
    PrependVerdict(e, ps);
    PrependEvidence(e, ps);
    if Usable(e.state) {
      PrependOldest(e, ps);
    }
  }

  // ----- alternatives side by side -----------------------------------------------------------

  /** The same standing: usable paths, imperfect paths and, failing usable ones, unknown paths. */
  ghost predicate SameStanding(xs: seq<Status>, ys: seq<Status>) {
    && (SomeIn(xs, USABLE) <==> SomeIn(ys, USABLE))
    && (SomeIn(xs, {Degraded, Unknown, Down}) <==> SomeIn(ys, {Degraded, Unknown, Down}))
    && (!SomeIn(xs, USABLE) ==> (SomeIn(xs, {Unknown}) <==> SomeIn(ys, {Unknown})))
  }

  ghost predicate AllSummarize(parts: seq<Status>, pss: seq<seq<Path>>) {
    |parts| == |pss| && forall k | 0 <= k < |parts| :: Summarizes(parts[k], pss[k])
  }

  function Join(pss: seq<seq<Path>>): seq<Path> {
    if pss == [] then [] else Join(pss[..|pss| - 1]) + pss[|pss| - 1]
  }

  lemma OneStanding(s: Status, ts: seq<Status>)
    requires ts != [] && s.state == Verdict(ts)
    ensures SameStanding([s], ts)
  {
    assert [s][0] == s;
    InAny(ts[0].state);
    if !SomeIn(ts, USABLE) && !SomeIn(ts, {Unknown}) {
      assert ts[0].state in {Degraded, Unknown, Down};
    }
    if SomeIn(ts, USABLE) && !SomeIn(ts, {Degraded, Unknown, Down}) {
      assert [s][0].state == Healthy;
    } else {
      assert s.state in {Degraded, Unknown, Down};
      assert [s][0].state in {Degraded, Unknown, Down};
    }
    assert SomeIn([s], USABLE) <==> s.state in USABLE;
    assert SomeIn([s], {Unknown}) <==> s.state in {Unknown};
    UnknownIsImperfect(ts);
  }

  lemma UnknownIsImperfect(ts: seq<Status>)
    ensures SomeIn(ts, {Unknown}) ==> SomeIn(ts, {Degraded, Unknown, Down})
  {
    if SomeIn(ts, {Unknown}) {
      var k :| 0 <= k < |ts| && ts[k].state in {Unknown};
      assert ts[k].state in {Degraded, Unknown, Down};
    }
  }

  lemma StandingConcat(xs: seq<Status>, ys: seq<Status>, us: seq<Status>, vs: seq<Status>)
    requires SameStanding(xs, ys) && SameStanding(us, vs)
    ensures SameStanding(xs + us, ys + vs)
  {
    hide SomeIn;
    SomeInConcat(xs, us, USABLE);
    SomeInConcat(ys, vs, USABLE);
    SomeInConcat(xs, us, {Unknown});
    SomeInConcat(ys, vs, {Unknown});
    SomeInConcat(xs, us, {Degraded, Unknown, Down});
    SomeInConcat(ys, vs, {Degraded, Unknown, Down});
  }

  lemma {:induction false} JoinStanding(parts: seq<Status>, pss: seq<seq<Path>>)
    requires AllSummarize(parts, pss)
    ensures SameStanding(parts, Totals(Join(pss)))
    ensures AllEvidence(parts) == AllEvidence(Totals(Join(pss)))
    ensures Oldest(parts, USABLE) == Oldest(Totals(Join(pss)), USABLE)
    ensures parts != [] ==> Join(pss) != []
  {
    hide Series, Totals;
    if parts == [] {
      assert Totals(Join(pss)) == [];
    } else {
      var n := |parts| - 1;
      JoinStanding(parts[..n], pss[..n]);
      var before, last := Join(pss[..n]), pss[n];
      TotalsConcat(before, last);
      OneStanding(parts[n], Totals(last));
      StandingConcat(parts[..n], Totals(before), [parts[n]], Totals(last));
      assert parts == parts[..n] + [parts[n]];
      EvidenceConcat(Totals(before), Totals(last));
      OldestConcat(Totals(before), Totals(last), USABLE);
      if !Usable(parts[n].state) {
        NoneUsable(Totals(last));
      }
    }
  }

  lemma AlternativesSummarize(parts: seq<Status>, pss: seq<seq<Path>>)
    requires AllSummarize(parts, pss) && parts != []
    ensures Summarizes(Alternatives(parts), Join(pss))
  {
    hide Series, Totals, SomeIn;
    JoinStanding(parts, pss);
    if |parts| == 1 {
      assert pss[..0] == [];
      assert Join(pss) == pss[0];
    }
  }

  // ----- the main theorem -----------------------------------------------------------------------

  lemma {:induction false} ThroughIsJoin(edges: seq<Status>, kids: seq<Status>, onward: seq<seq<Path>>)
    requires |edges| == |kids| && AllSummarize(kids, onward)
    ensures exists pss :: Join(pss) == Through(edges, onward) && AllSummarize(InSeries(edges, kids), pss)
  {
    hide Series, Summarizes, Prepend;
    if edges == [] {
      assert AllSummarize(InSeries(edges, kids), []);
    } else {
      var n := |edges| - 1;
      ThroughIsJoin(edges[..n], kids[..n], onward[..n]);
      var pss :| Join(pss) == Through(edges[..n], onward[..n]) && AllSummarize(InSeries(edges[..n], kids[..n]), pss);
      PrependSummarizes(edges[n], kids[n], onward[n]);
      var qss := pss + [Prepend(edges[n], onward[n])];
      assert qss[..n] == pss;
      assert InSeries(edges, kids) == InSeries(edges[..n], kids[..n]) + [Series([edges[n], kids[n]])];
      assert AllSummarize(InSeries(edges, kids), qss);
    }
  }

  lemma OneVerdict(s: Status)
    ensures Verdict([s]) == s.state
  {
    assert [s][0] == s;
    assert forall states :: SomeIn([s], states) <==> s.state in states;
    match s.state
    case Healthy => case Degraded => case Unknown => case Down =>
  }

  lemma OnePath(s: Status)
    ensures Summarizes(s, [[s]])
  {
    var one := Series([s]);
    SeriesOne(s);
    assert Totals([[s]]) == [one];
    OneVerdict(one);
    assert [one][..0] == [];
    assert AllEvidence([one]) == {} + one.evidence;
    if Usable(s.state) {
      assert Oldest([one], USABLE) == Older(None, one.observed);
    }
  }

  /** For every acyclic line, the status of a listener is the summary of all complete paths
      from it, enumerated one by one. */
  lemma {:induction false} LineSummarizesPaths(g: Line, rank: string -> nat, t: Table, id: string, at: int)
    requires Ranked(g, rank)
    ensures Summarizes(Eval(g, rank, t, id, at), Paths(g, rank, t, id, at))
    decreases rank(id), 1, 0
  {
    hide Summarizes, Series, Alternatives, Through, InSeries, Edge, Totals;
    OnePath(NO_ROUTE);
    if id in g.members {
      var m := g.members[id];
      if !Live(m) {
        OnePath(Stopped(m));
      } else {
        var ids, edges := Children(g, id), Edges(g, t, id, at);
        var kids := if ids == [] then [g.landing] else EvalAll(g, rank, t, ids, rank(id), at);
        var onward := if ids == [] then [[[g.landing]]] else PathsAll(g, rank, t, ids, rank(id), at);
        OnePath(g.landing);
        AllSummarizePaths(g, rank, t, ids, rank(id), at);
        if |edges| == |kids| {
          ThroughIsJoin(edges, kids, onward);
          var pss :| Join(pss) == Through(edges, onward) && AllSummarize(InSeries(edges, kids), pss);
          AlternativesSummarize(InSeries(edges, kids), pss);
        }
      }
    }
  }

  lemma {:induction false} AllSummarizePaths(g: Line, rank: string -> nat, t: Table, ids: seq<string>, bound: nat, at: int)
    requires Ranked(g, rank) && forall k | 0 <= k < |ids| :: rank(ids[k]) < bound
    ensures AllSummarize(EvalAll(g, rank, t, ids, bound, at), PathsAll(g, rank, t, ids, bound, at))
    decreases bound, 0, |ids|
  {
    hide Summarizes, Eval, Paths;
    if ids != [] {
      var n := |ids| - 1;
      AllSummarizePaths(g, rank, t, ids[..n], bound, at);
      LineSummarizesPaths(g, rank, t, ids[n], at);
    }
  }

  // ----- lines that a TCP probe says nothing about ------------------------------------------------

  lemma UdpEdge(g: Line, t: Table, id: string, j: nat, at: int)
    requires g.udp && id in g.members && Live(g.members[id]) && j < |g.members[id].targets.value|
    ensures !Usable(EdgeOf(g, t, id, j, at).1.state)
    ensures EdgeOf(g, t, id, j, at).1.state == Down ==> Probe(g.members[id], true, j) == ("down", "backend")
  {
  }

  /** A datagram line is never shown as usable past a listener that runs, whatever its probes
      and its landing say: no probe of the panel speaks for datagrams. */
  lemma UdpLineIsNeverUsable(g: Line, rank: string -> nat, t: Table, id: string, at: int)
    requires Ranked(g, rank) && g.udp && id in g.members && Live(g.members[id])
    ensures !Usable(Eval(g, rank, t, id, at).state)
  {
    hide EdgeOf, Series;
    var ids, edges := Children(g, id), Edges(g, t, id, at);
    var kids := if ids == [] then [g.landing] else EvalAll(g, rank, t, ids, rank(id), at);
    if |edges| == |kids| {
      forall j | 0 <= j < |edges|
        ensures !Usable(InSeries(edges, kids)[j].state)
      {
        UdpEdge(g, t, id, j, at);
        SeriesPair(edges[j], kids[j]);
      }
    }
  }
}
