/** The four viewer budgets and the tombstone reserve of the live-diagnostics broker. */
module DiagnosticsBudget {
  import opened Collections
  import opened DiagnosticsModel
  import opened DiagnosticsSafety
  import opened DiagnosticsViewers

  ghost predicate ViewerBudget(nodes: map<int, Record>) {
    && (forall id | id in nodes :: |nodes[id].viewers| <= 8)
    && |AllViewers(nodes)| <= 32
    && (forall p :: |OwnViewers(nodes, p)| <= 4)
    && |ActiveNodes(nodes)| <= 8
  }

  /** Every live viewer still has room for the tombstone of its own release. */
  ghost predicate Budget(b: Broker) {
    ViewerBudget(b.nodes) && |b.tombstones| + |AllViewers(b.nodes)| <= 512
  }

  /** No viewer is new and no viewer changed hands. */
  ghost predicate NoNewViewer(before: map<int, Record>, after: map<int, Record>) {
    forall id, k | id in after && k in after[id].viewers ::
      id in before && k in before[id].viewers && before[id].viewers[k].principal == after[id].viewers[k].principal
  }

  lemma NoNewViewerKeepsBudget(before: map<int, Record>, after: map<int, Record>)
    requires ViewerBudget(before) && NoNewViewer(before, after)
    ensures ViewerBudget(after) && |AllViewers(after)| <= |AllViewers(before)|
  {
    SubsetSmaller(AllViewers(after), AllViewers(before));
    ActiveShrinks(before, after);
    forall p
      ensures |OwnViewers(after, p)| <= MAX_PRINCIPAL
    {
      SubsetSmaller(OwnViewers(after, p), OwnViewers(before, p));
    }
    forall id | id in after
      ensures |after[id].viewers| <= MAX_NODE_VIEWERS
    {
      if id in before {
        SubmapSmaller(after[id].viewers, before[id].viewers);
      } else {
        assert forall k :: k !in after[id].viewers;
      }
    }
  }

  lemma ActiveShrinks(before: map<int, Record>, after: map<int, Record>)
    requires NoNewViewer(before, after)
    ensures |ActiveNodes(after)| <= |ActiveNodes(before)|
  {
    forall id | id in ActiveNodes(after)
      ensures id in ActiveNodes(before)
    {
      var k :| k in after[id].viewers;
      assert k in before[id].viewers;
    }
    SubsetSmaller(ActiveNodes(after), ActiveNodes(before));
  }

  /** A step that adds neither a viewer nor a tombstone keeps the budget. */
  lemma ShrinkKeepsBudget(b: Broker, c: Broker)
    requires Budget(b) && NoNewViewer(b.nodes, c.nodes) && c.tombstones.Keys <= b.tombstones.Keys
    ensures Budget(c)
  {
    NoNewViewerKeepsBudget(b.nodes, c.nodes);
    SubmapSmaller(c.tombstones, b.tombstones);
  }

  lemma PruneKeepsBudget(b: Broker, at: Time)
    requires Budget(b)
    ensures Budget(Prune(b, at))
  {
    hide Budget;
    ShrinkKeepsBudget(b, Prune(b, at));
  }

  lemma EnsureKeepsBudget(b: Broker, id: int, identity: string, at: Time)
    requires Budget(b)
    ensures Budget(Ensure(b, id, identity, at))
  {
    hide Budget;
    ShrinkKeepsBudget(b, Ensure(b, id, identity, at));
  }

  /** Replacing one record by one with no new viewer keeps the budget. */
  lemma UpdateKeepsBudget(b: Broker, id: int, m: Record, next: Token)
    requires Budget(b) && id in b.nodes
    requires m.viewers.Keys <= b.nodes[id].viewers.Keys
    requires forall k | k in m.viewers :: m.viewers[k].principal == b.nodes[id].viewers[k].principal
    ensures Budget(b.(nodes := b.nodes[id := m], next := next))
  {
    hide Budget;
    ShrinkKeepsBudget(b, b.(nodes := b.nodes[id := m], next := next));
  }

  lemma RefreshKeepsBudget(b: Broker, id: int, at: Time, denied: set<string>)
    requires Budget(b) && id in b.nodes
    ensures Budget(Refresh(b, id, at, denied))
  {
    hide Budget;
    var n := ValidViewers(b.nodes[id], at, denied);
    var (m, next) := UpdateRunning(n, at, n.viewers != map[], b.next);
    UpdateKeepsBudget(b, id, m, next);
  }

  lemma ActivateKeepsBudget(b: Broker, id: int, m: Record, next: Token, at: Time, denied: set<string>)
    requires Budget(b) && id in b.nodes && m.viewers == b.nodes[id].viewers
    ensures Budget(Activate(b.(nodes := b.nodes[id := m], next := next), id, at, denied).0)
  {
    hide Budget, Refresh;
    var c := b.(nodes := b.nodes[id := m.(capabilityAt := at)], next := next);
    UpdateKeepsBudget(b, id, m.(capabilityAt := at), next);
    RefreshKeepsBudget(c, id, at, denied);
    assert b.nodes[id := m][id := m.(capabilityAt := at)] == c.nodes;
  }

  lemma ControlKeepsBudget(b: Broker, id: int, identity: string, session: string, echo: int, at: Time, denied: set<string>)
    requires Budget(b)
    ensures Budget(Control(b, id, identity, session, echo, at, denied).0)
  {
    hide Budget, Prune, Ensure, Activate, Accepts;
    PruneKeepsBudget(b, at);
    EnsureKeepsBudget(Prune(b, at), id, identity, at);
    var c := Ensure(Prune(b, at), id, identity, at);
    if id in c.nodes {
      var n := c.nodes[id];
      assert c == c.(nodes := c.nodes[id := n], next := c.next);
      ActivateKeepsBudget(c, id, n, c.next, at, denied);
      ActivateKeepsBudget(c, id, TakeOver(n, session, at, c.next), c.next + 2, at, denied);
      UpdateKeepsBudget(c, id, Challenge(n, session, at, c.next), c.next + 2);
    }
  }

  /** `after` is `before` with one more viewer. */
  ghost predicate OneMore(before: map<int, Record>, after: map<int, Record>, id: int, lease: string, v: Viewer) {
    && after.Keys == before.Keys && id in before && lease !in before[id].viewers
    && after[id].viewers == before[id].viewers[lease := v]
    && forall o | o in before && o != id :: after[o].viewers == before[o].viewers
  }

  lemma OneMoreInAll(before: map<int, Record>, after: map<int, Record>, id: int, lease: string, v: Viewer)
    requires OneMore(before, after, id, lease, v)
    ensures |AllViewers(after)| == |AllViewers(before)| + 1
  {
    hide AllViewers;
    forall x
      ensures x in AllViewers(after) <==> x in AllViewers(before) + {(id, lease)}
      ensures x == (id, lease) ==> x !in AllViewers(before)
    {
      assert x == (x.0, x.1);
      AnyMember(before, x.0, x.1);
      AnyMember(after, x.0, x.1);
    }
    assert AllViewers(after) == AllViewers(before) + {(id, lease)};
  }

  lemma AnyMember(nodes: map<int, Record>, id: int, k: string)
    ensures (id, k) in AllViewers(nodes) <==> id in nodes && k in nodes[id].viewers
  {
  }

  lemma OwnMember(nodes: map<int, Record>, p: int, id: int, k: string)
    ensures (id, k) in OwnViewers(nodes, p) <==> id in nodes && k in nodes[id].viewers && nodes[id].viewers[k].principal == p
  {
  }

  lemma OneMoreForPrincipal(before: map<int, Record>, after: map<int, Record>, id: int, lease: string, v: Viewer, p: int)
    requires OneMore(before, after, id, lease, v)
    ensures |OwnViewers(after, p)| == |OwnViewers(before, p)| + (if p == v.principal then 1 else 0)
  {
    hide OwnViewers;
    var more := if p == v.principal then {(id, lease)} else {};
    forall x
      ensures x in OwnViewers(after, p) <==> x in OwnViewers(before, p) + more
      ensures x in more ==> x !in OwnViewers(before, p)
    {
      assert x == (x.0, x.1);
      OwnMember(before, p, x.0, x.1);
      OwnMember(after, p, x.0, x.1);
    }
    assert OwnViewers(after, p) == OwnViewers(before, p) + more;
  }

  lemma OneMoreActive(before: map<int, Record>, after: map<int, Record>, id: int, lease: string, v: Viewer)
    requires OneMore(before, after, id, lease, v)
    ensures |ActiveNodes(after)| == |ActiveNodes(before)| + (if before[id].viewers == map[] then 1 else 0)
  {
    assert lease in after[id].viewers && after[id].viewers != map[];
    forall o
      ensures o in ActiveNodes(after) <==> o in ActiveNodes(before) + {id}
    {
      if o in before && o != id {
        assert after[o].viewers == before[o].viewers;
      }
    }
    assert ActiveNodes(after) == ActiveNodes(before) + {id};
    if before[id].viewers == map[] {
      assert id !in ActiveNodes(before);
    } else {
      assert id in ActiveNodes(before);
      assert ActiveNodes(after) == ActiveNodes(before);
    }
  }

  lemma AddViewerBudget(b: Broker, id: int, lease: string, v: Viewer)
    requires Budget(b) && id in b.nodes && lease !in b.nodes[id].viewers
    requires |b.tombstones| < OPEN_TOMBSTONES && !OverLimits(b, id, v.principal)
    ensures Budget(b.(nodes := b.nodes[id := b.nodes[id].(viewers := b.nodes[id].viewers[lease := v])]))
  {
    hide AllViewers, OwnViewers, ActiveNodes;
    var after := b.nodes[id := b.nodes[id].(viewers := b.nodes[id].viewers[lease := v])];
    OneMoreInAll(b.nodes, after, id, lease, v);
    OneMoreActive(b.nodes, after, id, lease, v);
    forall p
      ensures |OwnViewers(after, p)| <= MAX_PRINCIPAL
    {
      OneMoreForPrincipal(b.nodes, after, id, lease, v, p);
    }
  }

  lemma LeaseKeepsBudget(b: Broker, id: int, identity: string, owner: string, principal: int, lease: string, renew: bool, at: Time, denied: set<string>)
    requires Budget(b)
    ensures Budget(Lease(b, id, identity, owner, principal, lease, renew, at, denied).0)
  {
    hide Budget, Prune, Ensure, Refresh, OverLimits;
    PruneKeepsBudget(b, at);
    EnsureKeepsBudget(Prune(b, at), id, identity, at);
    var c := Ensure(Prune(b, at), id, identity, at);
    if id in c.nodes {
      var n := c.nodes[id];
      if lease in n.viewers {
        var m := n.(viewers := n.viewers[lease := n.viewers[lease].(until := at + VIEWER_TTL)]);
        UpdateKeepsBudget(c, id, m, c.next);
        RefreshKeepsBudget(c.(nodes := c.nodes[id := m]), id, at, denied);
      } else if |c.tombstones| < OPEN_TOMBSTONES && !OverLimits(c, id, principal) {
        var d := c.(next := c.next + 1);
        var v := Viewer(owner, principal, at + VIEWER_TTL, c.next);
        NextIrrelevant(c, d, id, principal);
        AddViewerBudget(d, id, lease, v);
        RefreshKeepsBudget(d.(nodes := d.nodes[id := n.(viewers := n.viewers[lease := v])]), id, at, denied);
      }
    }
  }

  lemma NextIrrelevant(b: Broker, c: Broker, id: int, principal: int)
    requires c == b.(next := c.next) && id in b.nodes
    ensures Budget(b) ==> Budget(c)
    ensures OverLimits(b, id, principal) == OverLimits(c, id, principal)
  {
  }

  lemma DropViewerKeepsBudget(b: Broker, id: int, lease: string, at: Time)
    requires Budget(b) && id in b.nodes
    ensures Budget(DropViewer(b, id, lease, at))
  {
    hide Budget;
    var n := b.nodes[id].(viewers := b.nodes[id].viewers - {lease});
    var (m, next) := if n.viewers == map[] then UpdateRunning(n, at, false, b.next) else (n, b.next);
    UpdateKeepsBudget(b, id, m, next);
  }

  /** Releasing one's own lease trades the viewer for its tombstone. */
  lemma OwnReleaseKeepsBudget(b: Broker, id: int, owner: string, lease: string, at: Time)
    requires Budget(b) && id in b.nodes && lease in b.nodes[id].viewers
    ensures Budget(DropViewer(b.(tombstones := b.tombstones[LeaseKey(id, owner, lease) := at + TOMBSTONE_TTL]), id, lease, at))
  {
    hide ViewerBudget, AllViewers;
    var d := DropViewer(b, id, lease, at);
    DropViewerKeepsBudget(b, id, lease, at);
    assert OneMore(d.nodes, b.nodes, id, lease, b.nodes[id].viewers[lease]);
    OneMoreInAll(d.nodes, b.nodes, id, lease, b.nodes[id].viewers[lease]);
    var t := b.tombstones[LeaseKey(id, owner, lease) := at + TOMBSTONE_TTL];
    assert t.Keys == b.tombstones.Keys + {LeaseKey(id, owner, lease)};
    assert DropViewer(b.(tombstones := t), id, lease, at) == d.(tombstones := t);
  }

  lemma ReleaseKeepsBudget(b: Broker, id: int, identity: string, owner: string, lease: string, at: Time)
    requires Budget(b)
    ensures Budget(Release(b, id, identity, owner, lease, at).0)
  {
    hide Prune, DropViewer, ViewerBudget;
    PruneKeepsBudget(b, at);
    var p := Prune(b, at);
    var k := LeaseKey(id, owner, lease);
    if Owned(p, id, identity, owner, lease) {
      OwnReleaseKeepsBudget(p, id, owner, lease, at);
    } else {
      assert p.tombstones[k := at + TOMBSTONE_TTL].Keys == p.tombstones.Keys + {k};
      ViewersBounded(p.nodes);
    }
  }

  lemma ViewersBounded(nodes: map<int, Record>)
    ensures ViewerBudget(nodes) ==> |AllViewers(nodes)| <= MAX_VIEWERS
  {
  }

  lemma RecordSampleKeepsBudget(b: Broker, id: int, identity: string, s: Sample, at: Time, denied: set<string>)
    requires Budget(b)
    ensures Budget(RecordSample(b, id, identity, s, at, denied).0)
  {
    hide Budget, Prune, Refresh;
    PruneKeepsBudget(b, at);
    var p := Prune(b, at);
    if id in p.nodes {
      RefreshKeepsBudget(p, id, at, denied);
      var c := Refresh(p, id, at, denied);
      UpdateKeepsBudget(c, id, Append(c.nodes[id], s, at), c.next);
    }
  }

  lemma StepKeepsBudget(b: Broker, e: Event)
    requires Budget(b)
    ensures Budget(Step(b, e))
  {
    hide Budget, Prune, Refresh, Control, Lease, Release, RecordSample, DropViewer;
    match e
    case PollEvent(id, identity, session, echo, at, denied) =>
      ControlKeepsBudget(b, id, identity, session, echo, at, denied);
    case LeaseEvent(id, identity, owner, principal, lease, renew, at, denied) =>
      LeaseKeepsBudget(b, id, identity, owner, principal, lease, renew, at, denied);
    case ReleaseEvent(id, identity, owner, lease, at) =>
      ReleaseKeepsBudget(b, id, identity, owner, lease, at);
    case SnapshotEvent(id, identity, owner, lease, after, at, denied) =>
      PruneKeepsBudget(b, at);
      if id in Prune(b, at).nodes {
        RefreshKeepsBudget(Prune(b, at), id, at, denied);
      }
    case SampleEvent(id, identity, s, at, denied) =>
      RecordSampleKeepsBudget(b, id, identity, s, at, denied);
    case TimerEvent(id, birth, lease, serial, expires, at) =>
      if id in b.nodes {
        DropViewerKeepsBudget(b, id, lease, at);
      }
    case ResetEvent =>
      ShrinkKeepsBudget(b, b.(nodes := map[], tombstones := map[]));
  }

  lemma InitialBudget()
    ensures Budget(INITIAL)
  {
    assert AllViewers(map[]) == {} && ActiveNodes(map[]) == {};
    assert forall p :: OwnViewers(map[], p) == {};
  }

  /** In every run the broker stays inside all budgets at once. */
  lemma {:induction false} RunKeepsBudget(run: seq<Event>, i: nat)
    requires i <= |run|
    ensures Budget(At(run, i))
  {
    hide Step, Budget;
    if i == 0 {
      InitialBudget();
    } else {
      RunKeepsBudget(run, i - 1);
      StepKeepsBudget(At(run, i - 1), run[i - 1]);
    }
  }

  /** However many releases of unknown leases came before, a viewer's own release is
      accepted, removes the viewer and bars the lease, within 512 tombstones. */
  lemma OwnReleaseNeverRefused(run: seq<Event>, i: nat, id: int, identity: string, owner: string, lease: string, at: Time)
    requires i <= |run| && Owned(Prune(At(run, i), at), id, identity, owner, lease)
    ensures var (c, failure) := Release(At(run, i), id, identity, owner, lease, at);
      && failure == None
      && id in c.nodes && lease !in c.nodes[id].viewers
      && LeaseKey(id, owner, lease) in c.tombstones
      && |c.tombstones| <= 512
  {
    hide Prune, At;
    PruneCarries(At(run, i), at, id, lease);
    LeasesAreWellFormed(run, i, id, lease);
    RunKeepsBudget(run, i);
    ReleaseKeepsBudget(At(run, i), id, identity, owner, lease, at);
  }
}
