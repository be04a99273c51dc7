/** The walk of the panel over a line: recursion with a memo, a visiting set and the shared
    confirmation table, all updated in place. */
module RuntimeWalk {
  import opened Collections
  import opened RuntimeStatus
  import opened RuntimeConfirmation
  import opened RuntimeLine

  function Lookup(t: Table, k: Key): Option<Failure> {
    if k in t then Some(t[k]) else None
  }

  /** An entry filed under a forwarding target belongs to that target's node. */
  ghost predicate NodeKeyed(t: Table) {
    forall k | k in t && k.Forward? :: t[k].node == k.node
  }

  /** Listeners on one node share that node's status. */
  ghost predicate OneStatusPerNode(g: Line) {
    forall a, b | a in g.members && b in g.members && g.members[a].report.node == g.members[b].report.node ::
      g.members[a].node == g.members[b].node
  }

  function ClearMember(t: Table, node: int, member: string): Table {
    map k | k in t && !(k.Forward? && k.node == node && k.member == member) :: t[k]
  }

  /** Target `j` of listener `id` as the table records it: untouched before the listener is
      evaluated, and after that updated exactly once from the starting table. */
  ghost predicate Touched(g: Line, start: Table, t: Table, id: string, j: nat, at: int, done: set<string>, current: string, upto: nat)
    requires id in g.members && Live(g.members[id]) && j < |g.members[id].targets.value|
  {
    var key := KeyOf(g.members[id], id, j);
    Lookup(t, key) == if id in done || (id == current && j < upto) then Lookup(EdgeOf(g, start, id, j, at).0, key) else Lookup(start, key)
  }

  /** All live listeners are untouched or done, the unfinished one only up to target `upto`. */
  ghost predicate OnceEach(g: Line, start: Table, t: Table, at: int, done: set<string>, current: string, upto: nat) {
    forall id, j: nat | id in g.members && Live(g.members[id]) && j < |g.members[id].targets.value| ::
      Touched(g, start, t, id, j, at, done, current, upto)
  }

  // ----- one table update at a time -------------------------------------------------------

  lemma EdgeLocal(t: Table, key: Key, r: Report, health: string, protocol: string, at: int, other: Key)
    requires other != key
    ensures Lookup(Edge(t, key, r, health, protocol, at).0, other) == Lookup(t, other)
  {
  }

  lemma EdgeSame(t: Table, u: Table, key: Key, r: Report, health: string, protocol: string, at: int)
    requires Lookup(t, key) == Lookup(u, key)
    ensures Edge(t, key, r, health, protocol, at).1 == Edge(u, key, r, health, protocol, at).1
    ensures Lookup(Edge(t, key, r, health, protocol, at).0, key) == Lookup(Edge(u, key, r, health, protocol, at).0, key)
  {
  }

  lemma EdgeKeyed(t: Table, key: Key, r: Report, health: string, protocol: string, at: int)
    requires NodeKeyed(t) && key.Forward? && key.node == r.node
    ensures NodeKeyed(Edge(t, key, r, health, protocol, at).0)
  {
  }

  /** Evaluating the next target of the current listener. */
  lemma EdgeStep(g: Line, start: Table, t: Table, at: int, done: set<string>, id: string, j: nat)
    requires NodeKeyed(t) && OnceEach(g, start, t, at, done, id, j) && id !in done
    requires id in g.members && Live(g.members[id]) && j < |g.members[id].targets.value|
    ensures var (u, s) := EdgeOf(g, t, id, j, at);
      NodeKeyed(u) && OnceEach(g, start, u, at, done, id, j + 1) && s == EdgeOf(g, start, id, j, at).1
  {
    hide Edge, Probe, Lookup;
    var m := g.members[id];
    var key := KeyOf(m, id, j);
    var (u, s) := EdgeOf(g, t, id, j, at);
    assert Touched(g, start, t, id, j, at, done, id, j);
    EdgeKeyed(t, key, m.report, Probe(m, g.udp, j).0, Probe(m, g.udp, j).1, at);
    EdgeSame(t, start, key, m.report, Probe(m, g.udp, j).0, Probe(m, g.udp, j).1, at);
    var upto := j + 1;
    forall o, k: nat | o in g.members && Live(g.members[o]) && k < |g.members[o].targets.value|
      ensures Touched(g, start, u, o, k, at, done, id, upto)
    {
      assert Touched(g, start, t, o, k, at, done, id, j);
      var other := KeyOf(g.members[o], o, k);
      if other != key {
        EdgeLocal(t, key, m.report, Probe(m, g.udp, j).0, Probe(m, g.udp, j).1, at, other);
      }
    }
  }

  lemma AllTargetsDone(g: Line, start: Table, t: Table, at: int, done: set<string>, id: string)
    requires id in g.members && Live(g.members[id])
    requires OnceEach(g, start, t, at, done, id, |g.members[id].targets.value|)
    ensures OnceEach(g, start, t, at, done + {id}, "", 0)
  {
    hide Edge, Lookup;
    forall o, k: nat | o in g.members && Live(g.members[o]) && k < |g.members[o].targets.value|
      ensures Touched(g, start, t, o, k, at, done + {id}, "", 0)
    {
      assert Touched(g, start, t, o, k, at, done, id, |g.members[id].targets.value|);
    }
  }

  lemma StartTargets(g: Line, start: Table, t: Table, at: int, done: set<string>, id: string)
    requires OnceEach(g, start, t, at, done, "", 0)
    ensures OnceEach(g, start, t, at, done, id, 0)
  {
    hide Edge, Lookup;
    forall o, k: nat | o in g.members && Live(g.members[o]) && k < |g.members[o].targets.value|
      ensures Touched(g, start, t, o, k, at, done, id, 0)
    {
      assert Touched(g, start, t, o, k, at, done, "", 0);
    }
  }

  lemma DropNodeKeeps(g: Line, start: Table, t: Table, at: int, done: set<string>, id: string)
    requires NodeKeyed(t) && OneStatusPerNode(g) && OnceEach(g, start, t, at, done, "", 0)
    requires id in g.members && g.members[id].node.state != Healthy
    ensures var u := DropNode(t, g.members[id].report.node);
      NodeKeyed(u) && OnceEach(g, start, u, at, done, "", 0)
  {
    hide Edge;
    var u := DropNode(t, g.members[id].report.node);
    forall o, k: nat | o in g.members && Live(g.members[o]) && k < |g.members[o].targets.value|
      ensures Touched(g, start, u, o, k, at, done, "", 0)
    {
      assert Touched(g, start, t, o, k, at, done, "", 0);
      assert g.members[o].report.node != g.members[id].report.node;
      assert Lookup(u, KeyOf(g.members[o], o, k)) == Lookup(t, KeyOf(g.members[o], o, k));
    }
  }

  lemma ClearMemberKeeps(g: Line, start: Table, t: Table, at: int, done: set<string>, id: string)
    requires NodeKeyed(t) && OnceEach(g, start, t, at, done, "", 0)
    requires id in g.members && !Live(g.members[id])
    ensures var u := ClearMember(t, g.members[id].report.node, id);
      NodeKeyed(u) && OnceEach(g, start, u, at, done, "", 0)
  {
    hide Edge;
    var u := ClearMember(t, g.members[id].report.node, id);
    forall o, k: nat | o in g.members && Live(g.members[o]) && k < |g.members[o].targets.value|
      ensures Touched(g, start, u, o, k, at, done, "", 0)
    {
      assert Touched(g, start, t, o, k, at, done, "", 0);
      assert Lookup(u, KeyOf(g.members[o], o, k)) == Lookup(t, KeyOf(g.members[o], o, k));
    }
  }

  // ----- the walk ---------------------------------------------------------------------------

  class LineWalk {
    const line: Line
    const at: int
    ghost const rank: string -> nat
    ghost const start: Table
    var failures: Table
    var cached: map<string, Status>
    var visiting: set<string>

    ghost predicate Valid()
      reads this
    {
      && Ranked(line, rank) && OneStatusPerNode(line) && NodeKeyed(failures)
      && (forall c | c in cached :: c in line.members && Live(line.members[c]) && cached[c] == Eval(line, rank, start, c, at))
      && OnceEach(line, start, failures, at, cached.Keys, "", 0)
    }

    constructor (line: Line, failures: Table, at: int, ghost rank: string -> nat)
      requires Ranked(line, rank) && OneStatusPerNode(line) && NodeKeyed(failures)
      ensures Valid() && visiting == {} && cached == map[]
      ensures this.line == line && this.at == at && this.rank == rank && this.start == failures && this.failures == failures
    {
      this.line, this.at, this.rank, this.start, this.failures := line, at, rank, failures, failures;
      cached, visiting := map[], {};
    }

    /** Negative, positive and clearing updates of one edge. */
    method JudgeEdge(id: string, j: nat, ghost done: set<string>) returns (s: Status)
      requires id in line.members && Live(line.members[id]) && j < |line.members[id].targets.value|
      requires NodeKeyed(failures) && id !in done && OnceEach(line, start, failures, at, done, id, j)
      modifies this`failures
      ensures failures == EdgeOf(line, old(failures), id, j, at).0
      ensures NodeKeyed(failures) && OnceEach(line, start, failures, at, done, id, j + 1)
      ensures s == EdgeOf(line, start, id, j, at).1
    {
      EdgeStep(line, start, failures, at, done, id, j);
      var m := line.members[id];
      var key, r := KeyOf(m, id, j), m.report;
      var (health, protocol) := Probe(m, line.udp, j);
      if (protocol == "backend" || protocol == "tcp") && health == "down" {
        var (t, confirmed) := Negative(failures, key, r, at);
        failures := t;
        s := Observed(if confirmed then Down else Unknown, if protocol == "backend" then "component_failure" else "no_route", r.observed, {"forward_tcp"});
      } else {
        failures := failures - {key};
        if protocol != "tcp" {
          s := Observed(Unknown, "unsupported", r.observed, {});
        } else if health == "up" {
          s := Observed(Healthy, "healthy", r.observed, {"forward_tcp"});
        } else {
          s := Observed(Unknown, "no_data", r.observed, {"forward_tcp"});
        }
      }
    }

    /** The memoised recursion computes the node-by-node status. */
    method Visit(id: string) returns (s: Status)
      requires Valid() && forall v | v in visiting :: rank(id) < rank(v)
      modifies this`failures, this`cached, this`visiting
      ensures Valid() && visiting == old(visiting)
      ensures s == Eval(line, rank, start, id, at)
      ensures cached.Keys >= old(cached.Keys)
      ensures forall c | c in cached && c !in old(cached) :: rank(c) <= rank(id)
      decreases rank(id)
    {
      hide OnceEach, NodeKeyed, OneStatusPerNode, Edges, InSeries, Alternatives, DropNode, ClearMember;
      if id in cached {
        return cached[id];
      }
      if id !in line.members || id in visiting {
        return NO_ROUTE;
      }
      var m := line.members[id];
      if m.node.state != Healthy {
        DropNodeKeeps(line, start, failures, at, cached.Keys, id);
        failures := DropNode(failures, m.report.node);
        return m.node;
      }
      if m.targets.None? || m.forward.None? {
        ClearMemberKeeps(line, start, failures, at, cached.Keys, id);
        failures := ClearMember(failures, m.report.node, id);
        return Stopped(m);
      }
      visiting := visiting + {id};
      var kids := VisitChildren(id);
      visiting := visiting - {id};
      if |m.targets.value| != |kids| {
        return NO_ROUTE;
      }
      var parts := JudgeAll(id, kids);
      s := ComputeAlternatives(parts);
      ghost var before := cached;
      cached := cached[id := s];
      assert cached.Keys == before.Keys + {id};
    }

    /** The statuses a listener's edges lead to. */
    method VisitChildren(id: string) returns (kids: seq<Status>)
      requires Valid() && id in visiting && id !in cached && forall v | v in visiting :: rank(id) <= rank(v)
      modifies this`failures, this`cached, this`visiting
      ensures Valid() && visiting == old(visiting) && id !in cached
      ensures kids == if Children(line, id) == [] then [line.landing] else EvalAll(line, rank, start, Children(line, id), rank(id), at)
      ensures cached.Keys >= old(cached.Keys)
      ensures forall c | c in cached && c !in old(cached) :: rank(c) < rank(id)
      decreases rank(id), 0
    {
      var ids := Children(line, id);
      if |ids| == 0 {
        return [line.landing];
      }
      kids := [];
      for k := 0 to |ids|
        invariant Valid() && visiting == old(visiting) && id !in cached
        invariant kids == EvalAll(line, rank, start, ids[..k], rank(id), at)
        invariant cached.Keys >= old(cached.Keys)
        invariant forall c | c in cached && c !in old(cached) :: rank(c) < rank(id)
      {
        assert ids[..k + 1][..k] == ids[..k];
        var s := Visit(ids[k]);
        kids := kids + [s];
      }
      assert ids[..|ids|] == ids;
    }

    /** Judge every edge of a listener and put it in series with what follows. */
    method JudgeAll(id: string, kids: seq<Status>) returns (parts: seq<Status>)
      requires Valid() && id in line.members && Live(line.members[id]) && id !in cached
      requires |kids| == |line.members[id].targets.value|
      modifies this`failures
      ensures NodeKeyed(failures) && OnceEach(line, start, failures, at, cached.Keys + {id}, "", 0)
      ensures parts == InSeries(Edges(line, start, id, at), kids)
    {
      hide OnceEach, NodeKeyed, Series, EdgeOf, Eval;
      var n := |kids|;
      ghost var all := InSeries(Edges(line, start, id, at), kids);
      StartTargets(line, start, failures, at, cached.Keys, id);
      parts := [];
      for j := 0 to n
        invariant NodeKeyed(failures) && OnceEach(line, start, failures, at, cached.Keys, id, j)
        invariant parts == all[..j]
      {
        var edge := JudgeEdge(id, j, cached.Keys);
        var part := ComputeSeries([edge, kids[j]]);
        parts := parts + [part];
      }
      AllTargetsDone(line, start, failures, at, cached.Keys, id);
    }

    /** The status of the whole line from its first listener. */
    method Evaluate(first: string, external: bool) returns (s: Status)
      requires Valid() && visiting == {}
      modifies this`failures, this`cached, this`visiting
      ensures Valid() && visiting == {}
      ensures s == if first in line.members && external then Series([Eval(line, rank, start, first, at), Plain(Unknown, "external_path", {})])
                   else Eval(line, rank, start, first, at)
    {
      s := Visit(first);
      if first in line.members && external {
        s := ComputeSeries([s, Plain(Unknown, "external_path", {})]);
      }
    }
  }
}
