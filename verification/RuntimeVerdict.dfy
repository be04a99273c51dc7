/** What the reports alone say about an edge and a line: when it is shown healthy and when down,
    told without the evaluator. */
module RuntimeVerdict {
  import opened Collections
  import opened RuntimeStatus
  import opened RuntimeConfirmation
  import opened RuntimeLine

  // ----- one edge ------------------------------------------------------------------------------

  /** The report of a listener says this about its target `j`: for a single target in the fields of
      the forward itself, for several in the entry at the same place, if it names the target. */
  predicate Says(m: Member, j: nat, health: string, protocol: string)
    requires Live(m) && j < |m.targets.value|
  {
    var f, targets := m.forward.value, m.targets.value;
    if |targets| == 1 then f.health == health && f.protocol == protocol
    else j < |f.targets| && f.targets[j].target == targets[j] && f.targets[j].health == health && f.targets[j].protocol == protocol
  }

  /** A probe that counts finds the target reachable; only TCP probes do, and not for datagrams. */
  predicate FoundUp(g: Line, id: string, j: nat)
    requires id in g.members && Live(g.members[id]) && j < |g.members[id].targets.value|
  {
    !g.udp && Says(g.members[id], j, "up", "tcp")
  }

  /** A probe that counts finds it unreachable, or the forwarding component reports itself down. */
  predicate FoundDown(g: Line, id: string, j: nat)
    requires id in g.members && Live(g.members[id]) && j < |g.members[id].targets.value|
  {
    Says(g.members[id], j, "down", "backend") || (!g.udp && Says(g.members[id], j, "down", "tcp"))
  }

  /** The edge as an entry of the history: a negative report, or a clearing. */
  function EdgeOp(g: Line, id: string, j: nat, at: int): Op
    requires id in g.members && Live(g.members[id]) && j < |g.members[id].targets.value|
  {
    var key := Forward(g.members[id].report.node, id, j);
    if FoundDown(g, id, j) then NegativeOp(key, g.members[id].report, at) else ClearOp({key})
  }

  /** In the history `run` an older negative report of this edge still stands. */
  ghost predicate DownBefore(run: seq<Op>, g: Line, id: string, j: nat, at: int)
    requires id in g.members && Live(g.members[id]) && j < |g.members[id].targets.value|
  {
    var key, r := Forward(g.members[id].report.node, id, j), g.members[id].report;
    var all := run + [NegativeOp(key, r, at)];
    exists b: nat | b < |run| ::
      Streak(all, b, |all|, key) && Negates(all, b, key) && all[b].report.sequence < r.sequence
  }

  lemma {:induction false} SamePrefix(run: seq<Op>, more: seq<Op>, i: nat)
    requires i <= |run|
    ensures TableAt(run + more, i) == TableAt(run, i)
  {
    if i > 0 {
      SamePrefix(run, more, i - 1);
    }
  }

  lemma ProbeSays(m: Member, udp: bool, j: nat)
    requires Live(m) && j < |m.targets.value|
    ensures Probe(m, udp, j) == ("up", "tcp") <==> !udp && Says(m, j, "up", "tcp")
    ensures Probe(m, udp, j) == ("down", "tcp") <==> !udp && Says(m, j, "down", "tcp")
    ensures Probe(m, udp, j) == ("down", "backend") <==> Says(m, j, "down", "backend")
  {
  }

  /** An edge enters the history as its report demands. */
  lemma EdgeIsAnOp(g: Line, t: Table, id: string, j: nat, at: int)
    requires id in g.members && Live(g.members[id]) && j < |g.members[id].targets.value|
    ensures EdgeOf(g, t, id, j, at).0 == Apply(t, EdgeOp(g, id, j, at))
  {
    hide Probe, Says, Negative;
    ProbeSays(g.members[id], g.udp, j);
  }

  /** An edge is healthy exactly when a counting probe finds it up, and down exactly when one finds
      it down and an older report that did so still stands; otherwise it is unknown.  It is dated
      by the report. */
  lemma EdgeVerdict(run: seq<Op>, g: Line, id: string, j: nat, at: int)
    requires id in g.members && Live(g.members[id]) && j < |g.members[id].targets.value|
    ensures var s := EdgeOf(g, TableAt(run, |run|), id, j, at).1;
      && (s.state == Healthy <==> FoundUp(g, id, j))
      && (s.state == Down <==> FoundDown(g, id, j) && DownBefore(run, g, id, j, at))
      && s.state != Degraded
      && s.observed == (if g.members[id].report.observed > 0 then Some(g.members[id].report.observed) else None)
  {
    hide Probe, Says, TableAt, Streak, Negative;
    ProbeSays(g.members[id], g.udp, j);
    NegativeVerdict(run, g, id, j, at);
  }

  lemma NegativeVerdict(run: seq<Op>, g: Line, id: string, j: nat, at: int)
    requires id in g.members && Live(g.members[id]) && j < |g.members[id].targets.value|
    ensures var key, r := Forward(g.members[id].report.node, id, j), g.members[id].report;
      Negative(TableAt(run, |run|), key, r, at).1 <==> DownBefore(run, g, id, j, at)
  {
    hide Streak, Negative, TableAt;
    var key, r := Forward(g.members[id].report.node, id, j), g.members[id].report;
    var all := run + [NegativeOp(key, r, at)];
    SamePrefix(run, [NegativeOp(key, r, at)], |run|);
    ConfirmedByTwoReports(all, |run|, key);
    assert all[|run|] == NegativeOp(key, r, at);
  }

  // ----- whole lines -----------------------------------------------------------------------------

  /** The listener runs and has as many targets as ways on. */
  predicate Connected(g: Line, id: string) {
    && id in g.members && Live(g.members[id])
    && |g.members[id].targets.value| == if Children(g, id) == [] then 1 else |Children(g, id)|
  }

  /** From this listener on, every probe finds its target up and the landing is healthy. */
  ghost predicate AllUp(g: Line, rank: string -> nat, id: string)
    requires Ranked(g, rank)
    decreases rank(id)
  {
    && Connected(g, id)
    && (forall j: nat | j < |g.members[id].targets.value| :: FoundUp(g, id, j))
    && (Children(g, id) == [] ==> g.landing.state == Healthy)
    && (forall j: nat | j < |Children(g, id)| :: rank(Children(g, id)[j]) < rank(id) && AllUp(g, rank, Children(g, id)[j]))
  }

  /** Way `j` on from a listener is cut at its edge, for a confirmed failure. */
  ghost predicate Cut(run: seq<Op>, g: Line, id: string, j: nat, at: int)
    requires id in g.members && Live(g.members[id]) && j < |g.members[id].targets.value|
  {
    FoundDown(g, id, j) && DownBefore(run, g, id, j, at)
  }

  /** From this listener on, every way is cut: the node is down, or each way on is cut at its edge or
      further on, or at a landing that is down. */
  ghost predicate Severed(run: seq<Op>, g: Line, rank: string -> nat, id: string, at: int)
    requires Ranked(g, rank)
    decreases rank(id)
  {
    || (id in g.members && g.members[id].node.state == Down)
    || (&& Connected(g, id)
        && (forall j: nat | j < |g.members[id].targets.value| ::
              || Cut(run, g, id, j, at)
              || (Children(g, id) == [] && g.landing.state == Down)
              || (j < |Children(g, id)| && rank(Children(g, id)[j]) < rank(id) && Severed(run, g, rank, Children(g, id)[j], at))))
  }

  lemma {:induction false} EvalAllAt(g: Line, rank: string -> nat, t: Table, ids: seq<string>, bound: nat, at: int, j: nat)
    requires Ranked(g, rank) && (forall k | 0 <= k < |ids| :: rank(ids[k]) < bound) && j < |ids|
    ensures EvalAll(g, rank, t, ids, bound, at)[j] == Eval(g, rank, t, ids[j], at)
  {
    hide Eval;
    if j < |ids| - 1 {
      EvalAllAt(g, rank, t, ids[..|ids| - 1], bound, at, j);
    }
  }

  /** Alternatives are healthy when all are, and down when all are. */
  lemma AlternativesState(parts: seq<Status>)
    requires parts != []
    ensures Alternatives(parts).state == Healthy <==> forall k | 0 <= k < |parts| :: parts[k].state == Healthy
    ensures Alternatives(parts).state == Down <==> forall k | 0 <= k < |parts| :: parts[k].state == Down
    ensures Usable(Alternatives(parts).state) <==> exists k | 0 <= k < |parts| :: Usable(parts[k].state)
  {
    InAny(parts[0].state);
    if |parts| > 1 {
      forall k | 0 <= k < |parts|
        ensures parts[k].state == Healthy || parts[k].state in {Degraded, Unknown, Down}
        ensures parts[k].state == Down || parts[k].state in USABLE || parts[k].state in {Unknown}
        ensures Usable(parts[k].state) <==> parts[k].state in USABLE
      {
        InAny(parts[k].state);
      }
    }
  }

  /** The ways on from a connected listener. */
  ghost function Kids(g: Line, rank: string -> nat, t: Table, id: string, at: int): seq<Status>
    requires Ranked(g, rank)
  {
    if Children(g, id) == [] then [g.landing] else EvalAll(g, rank, t, Children(g, id), rank(id), at)
  }

  lemma ConnectedState(g: Line, rank: string -> nat, t: Table, id: string, at: int)
    requires Ranked(g, rank) && Connected(g, id)
    ensures var kids, n := Kids(g, rank, t, id, at), |g.members[id].targets.value|;
      && |kids| == n
      && (Eval(g, rank, t, id, at).state == Healthy <==>
            forall j: nat | j < n :: EdgeOf(g, t, id, j, at).1.state == Healthy && kids[j].state == Healthy)
      && (Eval(g, rank, t, id, at).state == Down <==>
            forall j: nat | j < n :: EdgeOf(g, t, id, j, at).1.state == Down || kids[j].state == Down)
      && (Usable(Eval(g, rank, t, id, at).state) <==>
            exists j: nat | j < n :: Usable(EdgeOf(g, t, id, j, at).1.state) && Usable(kids[j].state))
  {
    hide EdgeOf, Series, Alternatives;
    var kids, edges := Kids(g, rank, t, id, at), Edges(g, t, id, at);
    var parts := InSeries(edges, kids);
    forall j: nat | j < |parts|
      ensures parts[j].state == Healthy <==> EdgeOf(g, t, id, j, at).1.state == Healthy && kids[j].state == Healthy
      ensures parts[j].state == Down <==> EdgeOf(g, t, id, j, at).1.state == Down || kids[j].state == Down
      ensures Usable(parts[j].state) <==> Usable(EdgeOf(g, t, id, j, at).1.state) && Usable(kids[j].state)
    {
      SeriesPair(edges[j], kids[j]);
    }
    AlternativesState(parts);
  }

  /** A listener that is not connected is never healthy, and down only with its node. */
  lemma UnconnectedState(g: Line, rank: string -> nat, t: Table, id: string, at: int)
    requires Ranked(g, rank) && !Connected(g, id)
    ensures Eval(g, rank, t, id, at).state != Healthy
    ensures Eval(g, rank, t, id, at).state == Down <==> id in g.members && g.members[id].node.state == Down
    ensures Usable(Eval(g, rank, t, id, at).state) <==> id in g.members && g.members[id].node.state == Degraded
  {
    hide Alternatives, Edges;
    if id in g.members && Live(g.members[id]) {
      EdgeCount(g, t, id, at);
    }
  }

  lemma EdgeCount(g: Line, t: Table, id: string, at: int)
    requires id in g.members && Live(g.members[id])
    ensures |Edges(g, t, id, at)| == |g.members[id].targets.value|
  {
  }

  lemma KidAt(g: Line, rank: string -> nat, t: Table, id: string, at: int, j: nat)
    requires Ranked(g, rank) && Children(g, id) != [] && j < |Children(g, id)|
    ensures j < |Kids(g, rank, t, id, at)| && Kids(g, rank, t, id, at)[j] == Eval(g, rank, t, Children(g, id)[j], at)
    ensures rank(Children(g, id)[j]) < rank(id)
  {
    hide Eval;
    EvalAllAt(g, rank, t, Children(g, id), rank(id), at, j);
  }

  /** A line is shown healthy exactly when, by the reports, everything on it is up. */
  lemma {:induction false} LineHealthyExactly(run: seq<Op>, g: Line, rank: string -> nat, id: string, at: int)
    requires Ranked(g, rank)
    ensures Eval(g, rank, TableAt(run, |run|), id, at).state == Healthy <==> AllUp(g, rank, id)
    decreases rank(id)
  {
    hide Eval, EdgeOf, FoundUp, FoundDown, DownBefore, Kids, TableAt;
    var t := TableAt(run, |run|);
    if !Connected(g, id) {
      UnconnectedState(g, rank, t, id, at);
    } else {
      ConnectedState(g, rank, t, id, at);
      forall j: nat | j < |g.members[id].targets.value|
        ensures EdgeOf(g, t, id, j, at).1.state == Healthy <==> FoundUp(g, id, j)
      {
        EdgeVerdict(run, g, id, j, at);
      }
      if Children(g, id) == [] {
        LandingKid(g, rank, t, id, at);
      } else {
        forall j: nat | j < |Children(g, id)|
          ensures rank(Children(g, id)[j]) < rank(id)
          ensures Kids(g, rank, t, id, at)[j].state == Healthy <==> AllUp(g, rank, Children(g, id)[j])
        {
          KidAt(g, rank, t, id, at, j);
          LineHealthyExactly(run, g, rank, Children(g, id)[j], at);
        }
      }
    }
  }

  /** From this listener on some way is open to the end: every probe on it finds its target up, and
      what it ends in is usable. */
  ghost predicate SomeWay(g: Line, rank: string -> nat, id: string)
    requires Ranked(g, rank)
    decreases rank(id)
  {
    || (id in g.members && g.members[id].node.state == Degraded)
    || (Connected(g, id) && exists j: nat | j < |g.members[id].targets.value| ::
          && FoundUp(g, id, j)
          && if Children(g, id) == [] then Usable(g.landing.state)
             else j < |Children(g, id)| && rank(Children(g, id)[j]) < rank(id) && SomeWay(g, rank, Children(g, id)[j]))
  }

  /** A line is shown healthy or degraded exactly when some way through it is open; with the other
      two theorems this settles all four states. */
  lemma {:induction false} LineUsableExactly(run: seq<Op>, g: Line, rank: string -> nat, id: string, at: int)
    requires Ranked(g, rank)
    ensures Usable(Eval(g, rank, TableAt(run, |run|), id, at).state) <==> SomeWay(g, rank, id)
    decreases rank(id)
  {
    hide Eval, EdgeOf, FoundUp, FoundDown, DownBefore, Kids, TableAt;
    var t := TableAt(run, |run|);
    if !Connected(g, id) {
      UnconnectedState(g, rank, t, id, at);
    } else {
      ConnectedState(g, rank, t, id, at);
      forall j: nat | j < |g.members[id].targets.value|
        ensures Usable(EdgeOf(g, t, id, j, at).1.state) <==> FoundUp(g, id, j)
      {
        EdgeVerdict(run, g, id, j, at);
      }
      if Children(g, id) == [] {
        LandingKid(g, rank, t, id, at);
      } else {
        forall j: nat | j < |Children(g, id)|
          ensures rank(Children(g, id)[j]) < rank(id)
          ensures Usable(Kids(g, rank, t, id, at)[j].state) <==> SomeWay(g, rank, Children(g, id)[j])
        {
          KidAt(g, rank, t, id, at, j);
          LineUsableExactly(run, g, rank, Children(g, id)[j], at);
        }
      }
    }
  }

  lemma LandingKid(g: Line, rank: string -> nat, t: Table, id: string, at: int)
    requires Ranked(g, rank) && Children(g, id) == []
    ensures Kids(g, rank, t, id, at) == [g.landing]
  {
  }

  /** A line is shown down exactly when, by reports and history, every way through it is cut. */
  lemma {:induction false} LineDownExactly(run: seq<Op>, g: Line, rank: string -> nat, id: string, at: int)
    requires Ranked(g, rank)
    ensures Eval(g, rank, TableAt(run, |run|), id, at).state == Down <==> Severed(run, g, rank, id, at)
    decreases rank(id)
  {
    hide Eval, EdgeOf, Cut, Kids, TableAt;
    var t := TableAt(run, |run|);
    if !Connected(g, id) {
      UnconnectedState(g, rank, t, id, at);
    } else {
      ConnectedState(g, rank, t, id, at);
      forall j: nat | j < |g.members[id].targets.value|
        ensures EdgeOf(g, t, id, j, at).1.state == Down <==> Cut(run, g, id, j, at)
      {
        CutIsDown(run, g, id, j, at);
      }
      if Children(g, id) == [] {
        LandingKid(g, rank, t, id, at);
      } else {
        forall j: nat | j < |Children(g, id)|
          ensures rank(Children(g, id)[j]) < rank(id)
          ensures Kids(g, rank, t, id, at)[j].state == Down <==> Severed(run, g, rank, Children(g, id)[j], at)
        {
          KidAt(g, rank, t, id, at, j);
          LineDownExactly(run, g, rank, Children(g, id)[j], at);
        }
      }
    }
  }

  lemma CutIsDown(run: seq<Op>, g: Line, id: string, j: nat, at: int)
    requires id in g.members && Live(g.members[id]) && j < |g.members[id].targets.value|
    ensures EdgeOf(g, TableAt(run, |run|), id, j, at).1.state == Down <==> Cut(run, g, id, j, at)
  {
    hide EdgeOf, FoundUp, FoundDown, DownBefore, TableAt;
    EdgeVerdict(run, g, id, j, at);
  }
}
