/** The life of one viewer: granted once, renewed later and later, ended by the right timer only. */
module DiagnosticsViewers {
  import opened DiagnosticsModel
  import opened DiagnosticsSafety
  import opened DiagnosticsTakeover

  // ----- what one step does to one viewer ---------------------------------------------------

  /** Viewer `k` of node `o`, if it is there after the step, was there before and is the same. */
  ghost predicate Carried(b: Broker, c: Broker, o: int, k: string) {
    o in c.nodes && k in c.nodes[o].viewers ==>
      && o in b.nodes && c.nodes[o].birth == b.nodes[o].birth
      && k in b.nodes[o].viewers && c.nodes[o].viewers[k] == b.nodes[o].viewers[k]
  }

  lemma CarriedTransitive(b: Broker, c: Broker, d: Broker, o: int, k: string)
    requires Carried(b, c, o, k) && Carried(c, d, o, k)
    ensures Carried(b, d, o, k)
  {
  }

  lemma PruneCarries(b: Broker, at: Time, o: int, k: string)
    ensures Carried(b, Prune(b, at), o, k)
  {
  }

  lemma EnsureCarries(b: Broker, id: int, identity: string, at: Time, o: int, k: string)
    ensures Carried(b, Ensure(b, id, identity, at), o, k)
  {
  }

  lemma PrepareCarries(b: Broker, id: int, identity: string, at: Time, o: int, k: string)
    ensures Carried(b, Ensure(Prune(b, at), id, identity, at), o, k)
  {
    hide Prune, Ensure, Carried;
    PruneCarries(b, at, o, k);
    EnsureCarries(Prune(b, at), id, identity, at, o, k);
    CarriedTransitive(b, Prune(b, at), Ensure(Prune(b, at), id, identity, at), o, k);
  }

  lemma RefreshCarries(b: Broker, id: int, at: Time, denied: set<string>, o: int, k: string)
    requires id in b.nodes
    ensures Carried(b, Refresh(b, id, at, denied), o, k)
  {
  }

  lemma DropCarries(b: Broker, id: int, lease: string, at: Time, o: int, k: string)
    requires id in b.nodes
    ensures Carried(b, DropViewer(b, id, lease, at), o, k)
  {
  }

  lemma ActivateCarries(b: Broker, id: int, m: Record, next: Token, at: Time, denied: set<string>, o: int, k: string)
    requires id in b.nodes && m.viewers == b.nodes[id].viewers && m.birth == b.nodes[id].birth
    ensures Carried(b, Activate(b.(nodes := b.nodes[id := m], next := next), id, at, denied).0, o, k)
  {
    hide Refresh;
    var c := b.(nodes := b.nodes[id := m], next := next);
    RefreshCarries(c.(nodes := c.nodes[id := m.(capabilityAt := at)]), id, at, denied, o, k);
  }

  lemma ControlRecordCarries(b: Broker, id: int, session: string, echo: int, at: Time, denied: set<string>, o: int, k: string)
    requires id in b.nodes
    ensures Carried(b, ControlRecord(b, id, session, echo, at, denied).0, o, k)
  {
    hide Activate;
    var n := b.nodes[id];
    if session in n.retired {
    } else if n.session == session {
      assert b == b.(nodes := b.nodes[id := n], next := b.next);
      ActivateCarries(b, id, n, b.next, at, denied, o, k);
    } else if Accepts(n, session, echo, at) {
      ActivateCarries(b, id, TakeOver(n, session, at, b.next), b.next + 2, at, denied, o, k);
    }
  }

  lemma ControlCarries(b: Broker, id: int, identity: string, session: string, echo: int, at: Time, denied: set<string>, o: int, k: string)
    ensures Carried(b, Control(b, id, identity, session, echo, at, denied).0, o, k)
  {
    hide Prune, Ensure, ControlRecord, Carried;
    var c := Ensure(Prune(b, at), id, identity, at);
    PrepareCarries(b, id, identity, at, o, k);
    if id in c.nodes {
      ControlRecordCarries(c, id, session, echo, at, denied, o, k);
      CarriedTransitive(b, c, ControlRecord(c, id, session, echo, at, denied).0, o, k);
    }
  }

  lemma ReleaseCarries(b: Broker, id: int, identity: string, owner: string, lease: string, at: Time, o: int, k: string)
    ensures Carried(b, Release(b, id, identity, owner, lease, at).0, o, k)
  {
    hide Prune, DropViewer, WellFormedId;
    var p := Prune(b, at);
    var q := p.(tombstones := p.tombstones[LeaseKey(id, owner, lease) := at + TOMBSTONE_TTL]);
    PruneCarries(b, at, o, k);
    if id in p.nodes {
      DropCarries(q, id, lease, at, o, k);
    }
  }

  lemma RefreshAfterPrune(b: Broker, id: int, at: Time, denied: set<string>, o: int, k: string)
    requires id in Prune(b, at).nodes
    ensures Carried(b, Refresh(Prune(b, at), id, at, denied), o, k)
  {
    hide Prune, Refresh, Carried;
    PruneCarries(b, at, o, k);
    RefreshCarries(Prune(b, at), id, at, denied, o, k);
    CarriedTransitive(b, Prune(b, at), Refresh(Prune(b, at), id, at, denied), o, k);
  }

  lemma SampleCarries(b: Broker, id: int, identity: string, s: Sample, at: Time, denied: set<string>, o: int, k: string)
    ensures Carried(b, RecordSample(b, id, identity, s, at, denied).0, o, k)
  {
    hide Prune, Refresh, ValidSample, LastN;
    PruneCarries(b, at, o, k);
    if id in Prune(b, at).nodes {
      RefreshAfterPrune(b, id, at, denied, o, k);
    }
  }

  /** The step renews viewer `k`: same viewer, a deadline at least five seconds later. */
  ghost predicate Renews(b: Broker, e: Event, c: Broker, o: int, k: string) {
    && e.LeaseEvent? && e.id == o && e.lease == k && WellFormedId(k)
    && o in b.nodes && o in c.nodes && c.nodes[o].birth == b.nodes[o].birth
    && k in b.nodes[o].viewers && k in c.nodes[o].viewers
    && var v, w := b.nodes[o].viewers[k], c.nodes[o].viewers[k];
    w == v.(until := w.until) && w.until == e.at + 30_000 && w.until >= v.until + 5_000
  }

  /** The step admits viewer `k` for the first time. */
  ghost predicate Admits(b: Broker, e: Event, c: Broker, o: int, k: string) {
    && e.LeaseEvent? && e.id == o && e.lease == k && WellFormedId(k)
    && o in c.nodes && k in c.nodes[o].viewers
    && c.nodes[o].viewers[k].serial >= b.next && c.nodes[o].viewers[k].until == e.at + 30_000
  }

  lemma GrantViewers(b: Broker, id: int, lease: string, v: Viewer, at: Time, denied: set<string>, o: int, k: string)
    requires id in b.nodes
    ensures var c := GrantViewer(b, id, lease, v, at, denied);
      if o == id && k == lease then k in c.nodes[o].viewers ==> c.nodes[o].viewers[k] == v && c.nodes[o].birth == b.nodes[o].birth
      else Carried(b, c, o, k)
  {
  }

  lemma LeaseRecordViewers(b: Broker, id: int, identity: string, owner: string, principal: int, lease: string, renew: bool, at: Time, denied: set<string>, o: int, k: string)
    requires id in b.nodes && WellFormedId(lease)
    ensures var c := LeaseRecord(b, id, owner, principal, lease, renew, at, denied).0;
      var e := LeaseEvent(id, identity, owner, principal, lease, renew, at, denied);
      Carried(b, c, o, k) || Renews(b, e, c, o, k) || Admits(b, e, c, o, k)
  {
    hide GrantViewer, OverLimits, WellFormedId;
    if lease in b.nodes[id].viewers {
      GrantViewers(b, id, lease, b.nodes[id].viewers[lease].(until := at + VIEWER_TTL), at, denied, o, k);
    } else {
      GrantViewers(b.(next := b.next + 1), id, lease, Viewer(owner, principal, at + VIEWER_TTL, b.next), at, denied, o, k);
    }
  }

  lemma LeaseViewers(b: Broker, id: int, identity: string, owner: string, principal: int, lease: string, renew: bool, at: Time, denied: set<string>, o: int, k: string)
    ensures var c := Lease(b, id, identity, owner, principal, lease, renew, at, denied).0;
      var e := LeaseEvent(id, identity, owner, principal, lease, renew, at, denied);
      Carried(b, c, o, k) || Renews(b, e, c, o, k) || Admits(b, e, c, o, k)
  {
    hide Prune, Ensure, LeaseRecord, WellFormedId;
    PruneCarries(b, at, o, k);
    PruneNext(b, at);
    if WellFormedId(lease) {
      var c := Ensure(Prune(b, at), id, identity, at);
      PrepareCarries(b, id, identity, at, o, k);
      if id in c.nodes {
        LeaseRecordViewers(c, id, identity, owner, principal, lease, renew, at, denied, o, k);
      }
    }
  }

  /** Every step carries a viewer over, renews it, or admits it; nothing else changes a viewer. */
  lemma StepViewers(b: Broker, e: Event, o: int, k: string)
    ensures var c := Step(b, e); Carried(b, c, o, k) || Renews(b, e, c, o, k) || Admits(b, e, c, o, k)
  {
    hide Control, Lease, Release, RecordSample, Prune, Refresh, DropViewer, Renews, Admits, Carried;
    match e
    case PollEvent(id, identity, session, echo, at, denied) => ControlCarries(b, id, identity, session, echo, at, denied, o, k);
    case LeaseEvent(id, identity, owner, principal, lease, renew, at, denied) =>
      LeaseViewers(b, id, identity, owner, principal, lease, renew, at, denied, o, k);
    case ReleaseEvent(id, identity, owner, lease, at) => ReleaseCarries(b, id, identity, owner, lease, at, o, k);
    case SnapshotEvent(id, identity, owner, lease, after, at, denied) =>
      PruneCarries(b, at, o, k);
      if id in Prune(b, at).nodes {
        RefreshAfterPrune(b, id, at, denied, o, k);
      }
    case SampleEvent(id, identity, s, at, denied) => SampleCarries(b, id, identity, s, at, denied, o, k);
    case TimerEvent(id, birth, lease, serial, expires, at) =>
      ItselfCarries(b, o, k);
      if id in b.nodes {
        DropCarries(b, id, lease, at, o, k);
      }
    case ResetEvent =>
      NothingCarries(b, b.(nodes := map[], tombstones := map[]), o, k);
  }

  lemma ItselfCarries(b: Broker, o: int, k: string)
    ensures Carried(b, b, o, k)
  {
  }

  lemma NothingCarries(b: Broker, c: Broker, o: int, k: string)
    requires c.nodes == map[]
    ensures Carried(b, c, o, k)
  {
  }

  // ----- whole runs --------------------------------------------------------------------------

  ghost predicate Present(run: seq<Event>, i: nat, o: int, k: string)
    requires i <= |run|
  {
    o in At(run, i).nodes && k in At(run, i).nodes[o].viewers
  }

  /** In every run every viewer holds a lease with a well-formed identifier. */
  lemma {:induction false} LeasesAreWellFormed(run: seq<Event>, i: nat, o: int, k: string)
    requires i <= |run| && Present(run, i, o, k)
    ensures WellFormedId(k)
  {
    hide Step, WellFormedId;
    if i > 0 {
      StepViewers(At(run, i - 1), run[i - 1], o, k);
      if Carried(At(run, i - 1), At(run, i), o, k) {
        LeasesAreWellFormed(run, i - 1, o, k);
      }
    }
  }

  /** A viewer whose serial was drawn before step `i` was there at step `i`, in the same record,
      with a deadline no later than it has now. */
  lemma {:induction false} TracesBack(run: seq<Event>, i: nat, j: nat, o: int, k: string)
    requires i <= j <= |run| && Present(run, j, o, k) && At(run, j).nodes[o].viewers[k].serial < At(run, i).next
    ensures Present(run, i, o, k)
    ensures var m, n := At(run, i).nodes[o], At(run, j).nodes[o];
      && m.birth == n.birth && m.viewers[k].serial == n.viewers[k].serial && m.viewers[k].until <= n.viewers[k].until
      && m.viewers[k].owner == n.viewers[k].owner && m.viewers[k].principal == n.viewers[k].principal
    decreases j
  {
    hide Step, WellFormedId;
    if i < j {
      StepViewers(At(run, j - 1), run[j - 1], o, k);
      NextGrows(run, i, j - 1);
      TracesBack(run, i, j - 1, o, k);
    }
  }

  /** Step `r` renews the viewer: the deadline it had is not the one it gets. */
  ghost predicate RenewedAt(run: seq<Event>, r: nat, o: int, k: string)
    requires r < |run|
  {
    && Present(run, r, o, k) && Present(run, r + 1, o, k)
    && At(run, r + 1).nodes[o].viewers[k].serial == At(run, r).nodes[o].viewers[k].serial
    && At(run, r + 1).nodes[o].viewers[k].until != At(run, r).nodes[o].viewers[k].until
  }

  lemma SerialDrawn(run: seq<Event>, i: nat, o: int, k: string)
    requires i <= |run| && Present(run, i, o, k)
    ensures At(run, i).nodes[o].viewers[k].serial < At(run, i).next
  {
    hide Step, RingOk, SessionsOk;
    RunKeepsRecords(run, i);
  }

  lemma RenewalIsLater(run: seq<Event>, r: nat, o: int, k: string)
    requires r < |run| && RenewedAt(run, r, o, k)
    ensures At(run, r + 1).nodes[o].viewers[k].until >= At(run, r).nodes[o].viewers[k].until + 5_000
  {
    hide Step, WellFormedId;
    assert At(run, r + 1) == Step(At(run, r), run[r]);
    StepViewers(At(run, r), run[r], o, k);
    SerialDrawn(run, r, o, k);
  }

  /** A timer set for a viewer at step `s`, with the deadline it had then, does nothing after any
      later renewal of that viewer, whenever it fires. */
  lemma RenewalOutlivesTimers(run: seq<Event>, s: nat, r: nat, j: nat, o: int, k: string, now: Time)
    requires s < r < j <= |run| && Present(run, s + 1, o, k) && RenewedAt(run, r, o, k)
    requires At(run, r).nodes[o].viewers[k].serial == At(run, s + 1).nodes[o].viewers[k].serial
    ensures var n := At(run, s + 1).nodes[o];
      Expire(At(run, j), o, n.birth, k, n.viewers[k].serial, n.viewers[k].until, now) == At(run, j)
  {
    hide Step, DropViewer;
    var n := At(run, s + 1).nodes[o];
    SerialDrawn(run, s + 1, o, k);
    SerialDrawn(run, r + 1, o, k);
    TracesBack(run, s + 1, r, o, k);
    RenewalIsLater(run, r, o, k);
    if Present(run, j, o, k) && At(run, j).nodes[o].viewers[k].serial == n.viewers[k].serial {
      TracesBack(run, r + 1, j, o, k);
    }
  }
}
