/** The graphs the panel builds for a line, and why the walk over them ends. */
module RuntimeTopology {
  import opened RuntimeLine

  type Adjacency = map<string, seq<string>>

  function Get(adj: Adjacency, id: string): seq<string> { if id in adj then adj[id] else [] }

  // ----- an ordinary line: every listener leads to every listener of the next group -------

  /** Every listener of `ids` also leads to every listener of `next`. */
  function Lead(adj: Adjacency, ids: seq<string>, next: seq<string>): Adjacency {
    if ids == [] || next == [] then adj
    else
      var a := Lead(adj, ids[..|ids| - 1], next);
      a[ids[|ids| - 1] := Get(a, ids[|ids| - 1]) + next]
  }

  function Layered(groups: seq<seq<string>>): Adjacency {
    if |groups| <= 1 then map[]
    else Lead(Layered(groups[..|groups| - 1]), groups[|groups| - 2], groups[|groups| - 1])
  }

  /** The nested loops of the panel. */
  method BuildLayered(groups: seq<seq<string>>) returns (adj: Adjacency)
    ensures adj == Layered(groups)
  {
    adj := map[];
    for i := 0 to |groups|
      invariant adj == Layered(if i < |groups| then groups[..i + 1] else groups)
    {
      if i + 1 < |groups| {
        ghost var before := adj;
        for m := 0 to |groups[i]|
          invariant adj == Lead(before, groups[i][..m], groups[i + 1])
        {
          adj := LeadOne(adj, groups[i][m], groups[i + 1]);
          assert groups[i][..m + 1][..m] == groups[i][..m];
        }
        assert groups[i][..|groups[i]|] == groups[i];
        assert groups[..i + 2][..i + 1] == groups[..i + 1];
        assert Layered(groups[..i + 2]) == adj;
        assert i + 2 == |groups| ==> groups[..i + 2] == groups;
      } else {
        assert groups[..i + 1] == groups;
      }
    }
  }

  method LeadOne(adj: Adjacency, id: string, next: seq<string>) returns (r: Adjacency)
    ensures r == if next == [] then adj else adj[id := Get(adj, id) + next]
  {
    r := adj;
    for c := 0 to |next|
      invariant r == if c == 0 then adj else adj[id := Get(adj, id) + next[..c]]
    {
      assert Get(adj, id) + next[..c] + [next[c]] == Get(adj, id) + next[..c + 1];
      assert next[..0] == [] && Get(adj, id) + [] == Get(adj, id);
      r := r[id := Get(r, id) + [next[c]]];
    }
    assert next[..|next|] == next;
  }

  /** Group `i` holds `a` and the next group holds `b`. */
  ghost predicate Adjacent(groups: seq<seq<string>>, i: int, a: string, b: string) {
    0 <= i < |groups| - 1 && a in groups[i] && b in groups[i + 1]
  }

  lemma {:induction false} LeadEdges(adj: Adjacency, ids: seq<string>, next: seq<string>, a: string, b: string)
    ensures b in Get(Lead(adj, ids, next), a) <==> b in Get(adj, a) || (a in ids && b in next)
  {
    if ids != [] && next != [] {
      var n := |ids| - 1;
      LeadEdges(adj, ids[..n], next, a, b);
      assert a in ids <==> a in ids[..n] || a == ids[n];
    }
  }

  /** The built edges are exactly those between neighbouring groups. */
  lemma {:induction false} LayeredEdges(groups: seq<seq<string>>, a: string, b: string)
    ensures b in Get(Layered(groups), a) <==> exists i :: Adjacent(groups, i, a, b)
  {
    if |groups| > 1 {
      var n := |groups| - 1;
      LeadEdges(Layered(groups[..n]), groups[n - 1], groups[n], a, b);
      LayeredEdges(groups[..n], a, b);
      if i :| Adjacent(groups[..n], i, a, b) {
        assert Adjacent(groups, i, a, b);
      }
      if a in groups[n - 1] && b in groups[n] {
        assert Adjacent(groups, n - 1, a, b);
      }
      if i :| Adjacent(groups, i, a, b) {
        assert i == n - 1 || Adjacent(groups[..n], i, a, b);
      }
    }
  }

  /** No listener appears in two groups. */
  ghost predicate OneGroupEach(groups: seq<seq<string>>) {
    forall i, j, id | 0 <= i < j < |groups| && id in groups[i] :: id !in groups[j]
  }

  ghost function GroupRank(groups: seq<seq<string>>): string -> nat {
    (id: string) => if exists i :: 0 <= i < |groups| && id in groups[i]
      then var i :| 0 <= i < |groups| && id in groups[i]; |groups| - i else 0
  }

  /** Every ordinary line whose listeners are told apart by group is acyclic. */
  lemma LayeredIsRanked(g: Line, groups: seq<seq<string>>)
    requires g.adjacency == Layered(groups) && OneGroupEach(groups)
    ensures Ranked(g, GroupRank(groups))
  {
    forall id, k | id in g.adjacency && 0 <= k < |g.adjacency[id]|
      ensures GroupRank(groups)(g.adjacency[id][k]) < GroupRank(groups)(id)
    {
      var b := g.adjacency[id][k];
      assert b in Get(g.adjacency, id);
      LayeredEdges(groups, id, b);
      var i :| Adjacent(groups, i, id, b);
      RankInGroup(groups, i, id);
      RankInGroup(groups, i + 1, b);
    }
  }

  lemma RankInGroup(groups: seq<seq<string>>, i: int, id: string)
    requires OneGroupEach(groups) && 0 <= i < |groups| && id in groups[i]
    ensures GroupRank(groups)(id) == |groups| - i
  {
    assert forall j | 0 <= j < |groups| && id in groups[j] :: j == i;
  }

  // ----- a complete-path route: a root, and one chain of listeners per branch -----------------

  /** The listeners of one branch, each leading to the next. */
  function Chain(adj: Adjacency, branch: seq<string>, n: nat): Adjacency
    requires n <= |branch|
  {
    if n == 0 then adj
    else Chain(adj, branch, n - 1)[branch[n - 1] := if n < |branch| then [branch[n]] else []]
  }

  function Branched(root: string, branches: seq<seq<string>>): Adjacency {
    if branches == [] then map[]
    else
      var last := branches[|branches| - 1];
      var a := Branched(root, branches[..|branches| - 1]);
      if last == [] then a else Chain(a[root := Get(a, root) + [last[0]]], last, |last|)
  }

  method BuildBranched(root: string, branches: seq<seq<string>>) returns (adj: Adjacency)
    ensures adj == Branched(root, branches)
  {
    adj := map[];
    for b := 0 to |branches|
      invariant adj == Branched(root, branches[..b])
    {
      assert branches[..b + 1][..b] == branches[..b];
      var branch := branches[b];
      if |branch| > 0 {
        adj := adj[root := Get(adj, root) + [branch[0]]];
        ghost var before := adj;
        for i := 0 to |branch|
          invariant adj == Chain(before, branch, i)
        {
          adj := adj[branch[i] := []];
          if i + 1 < |branch| {
            adj := adj[branch[i] := [branch[i + 1]]];
          }
        }
      }
    }
    assert branches[..|branches|] == branches;
  }

  /** An edge from the root into a branch, or from one listener of a branch to the next. */
  ghost predicate RouteEdge(root: string, branches: seq<seq<string>>, n: int, i: int, a: string, b: string) {
    && 0 <= n < |branches| && 0 <= i < |branches[n]| && b == branches[n][i]
    && a == if i == 0 then root else branches[n][i - 1]
  }

  lemma {:induction false} ChainEdges(adj: Adjacency, branch: seq<string>, n: nat, a: string, b: string)
    requires n <= |branch| && b in Get(Chain(adj, branch, n), a)
    ensures b in Get(adj, a) || exists i :: 0 < i < |branch| && a == branch[i - 1] && b == branch[i]
  {
    if n > 0 {
      if a != branch[n - 1] {
        ChainEdges(adj, branch, n - 1, a, b);
      } else {
        assert b == branch[n];
      }
    }
  }

  lemma {:induction false} BranchedEdges(root: string, branches: seq<seq<string>>, a: string, b: string)
    requires b in Get(Branched(root, branches), a)
    ensures exists n, i :: RouteEdge(root, branches, n, i, a, b)
  {
    if branches != [] {
      var k := |branches| - 1;
      var before, last := Branched(root, branches[..k]), branches[k];
      if last != [] {
        ChainEdges(before[root := Get(before, root) + [last[0]]], last, |last|, a, b);
      }
      if i :| last != [] && 0 < i < |last| && a == last[i - 1] && b == last[i] {
        assert RouteEdge(root, branches, k, i, a, b);
      } else if b in Get(before, a) {
        BranchedEdges(root, branches[..k], a, b);
        var n, i :| RouteEdge(root, branches[..k], n, i, a, b);
        assert RouteEdge(root, branches, n, i, a, b);
      } else {
        assert RouteEdge(root, branches, k, 0, a, b);
      }
    }
  }

  /** The root and the listeners are pairwise different. */
  ghost predicate AllDifferent(root: string, branches: seq<seq<string>>) {
    && (forall n, i | 0 <= n < |branches| && 0 <= i < |branches[n]| :: branches[n][i] != root)
    && (forall n, i, m, j | 0 <= n < |branches| && 0 <= i < |branches[n]| && 0 <= m < |branches| && 0 <= j < |branches[m]|
          && branches[n][i] == branches[m][j] :: n == m && i == j)
  }

  function Longest(branches: seq<seq<string>>): (l: nat)
    ensures forall n | 0 <= n < |branches| :: |branches[n]| <= l
  {
    if branches == [] then 0
    else
      var rest := Longest(branches[..|branches| - 1]);
      var last := |branches[|branches| - 1]|;
      assert forall n | 0 <= n < |branches| - 1 :: branches[..|branches| - 1][n] == branches[n];
      if last > rest then last else rest
  }

  ghost predicate Sits(branches: seq<seq<string>>, n: int, i: int, id: string) {
    0 <= n < |branches| && 0 <= i < |branches[n]| && branches[n][i] == id
  }

  ghost function RouteRank(root: string, branches: seq<seq<string>>): string -> nat {
    (id: string) =>
      if id == root then Longest(branches) + 1
      else if exists n, i :: Sits(branches, n, i, id)
      then var n, i :| Sits(branches, n, i, id); |branches[n]| - i else 0
  }

  lemma RankInBranch(root: string, branches: seq<seq<string>>, n: int, i: int, id: string)
    requires AllDifferent(root, branches) && Sits(branches, n, i, id)
    ensures RouteRank(root, branches)(id) == |branches[n]| - i
  {
    assert forall m, j | Sits(branches, m, j, id) :: m == n && j == i;
  }

  /** Every complete-path route with distinct listeners is acyclic. */
  lemma BranchedIsRanked(g: Line, root: string, branches: seq<seq<string>>)
    requires g.adjacency == Branched(root, branches) && AllDifferent(root, branches)
    ensures Ranked(g, RouteRank(root, branches))
  {
    forall id, k | id in g.adjacency && 0 <= k < |g.adjacency[id]|
      ensures RouteRank(root, branches)(g.adjacency[id][k]) < RouteRank(root, branches)(id)
    {
      var b := g.adjacency[id][k];
      assert b in Get(g.adjacency, id);
      BranchedEdges(root, branches, id, b);
      var n, i :| RouteEdge(root, branches, n, i, id, b);
      assert Sits(branches, n, i, b);
      RankInBranch(root, branches, n, i, b);
      if i > 0 {
        assert Sits(branches, n, i - 1, id);
        RankInBranch(root, branches, n, i - 1, id);
      }
    }
  }

  // ----- every edge of a route is built --------------------------------------------------------

  /** What a chain leaves alone, and what it builds. */
  lemma {:induction false} ChainHas(adj: Adjacency, branch: seq<string>, n: nat, a: string)
    requires n <= |branch| && forall i, j | 0 <= i < j < |branch| :: branch[i] != branch[j]
    ensures (forall i | 0 <= i < n :: branch[i] != a) ==> Get(Chain(adj, branch, n), a) == Get(adj, a)
    ensures forall i | 0 <= i < n && branch[i] == a :: Get(Chain(adj, branch, n), a) == if i + 1 < |branch| then [branch[i + 1]] else []
  {
    if n > 0 {
      ChainHas(adj, branch, n - 1, a);
    }
  }

  /** A listener of one branch leads where it did before later branches were added. */
  lemma {:induction false} BranchedHas(root: string, branches: seq<seq<string>>, n: nat, i: nat)
    requires AllDifferent(root, branches) && n < |branches| && i < |branches[n]|
    ensures branches[n][i] in Get(Branched(root, branches), if i == 0 then root else branches[n][i - 1])
    decreases |branches|
  {
    var k := |branches| - 1;
    var rest, last := branches[..k], branches[k];
    var before := Branched(root, rest);
    var a := if i == 0 then root else branches[n][i - 1];
    OneBranchLess(root, branches);
    if n < k {
      BranchedHas(root, rest, n, i);
    }
    if last != [] {
      var led := before[root := Get(before, root) + [last[0]]];
      LastDiffers(root, branches);
      ChainHas(led, last, |last|, a);
      if i == 0 {
        assert forall j | 0 <= j < |last| :: last[j] != root;
      } else if n < k {
        assert forall j | 0 <= j < |last| :: last[j] != branches[n][i - 1];
        assert branches[n][i - 1] != root;
      } else {
        assert last[i - 1] == a;
      }
    }
  }

  lemma OneBranchLess(root: string, branches: seq<seq<string>>)
    requires AllDifferent(root, branches) && branches != []
    ensures AllDifferent(root, branches[..|branches| - 1])
  {
  }

  lemma LastDiffers(root: string, branches: seq<seq<string>>)
    requires AllDifferent(root, branches) && branches != []
    ensures var last := branches[|branches| - 1]; forall i, j | 0 <= i < j < |last| :: last[i] != last[j]
  {
  }

  /** On distinct listeners the built edges are exactly those of the root and the branches. */
  lemma BranchedExactly(root: string, branches: seq<seq<string>>, a: string, b: string)
    requires AllDifferent(root, branches)
    ensures b in Get(Branched(root, branches), a) <==> exists n, i :: RouteEdge(root, branches, n, i, a, b)
  {
    if b in Get(Branched(root, branches), a) {
      BranchedEdges(root, branches, a, b);
    }
    if n, i :| RouteEdge(root, branches, n, i, a, b) {
      BranchedHas(root, branches, n, i);
    }
  }
}
