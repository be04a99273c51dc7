/** The sample ring, the leases that keep it running, and what viewers are shown. */
module DiagnosticsRing {
  import opened Collections
  import opened DiagnosticsModel
  import opened DiagnosticsSafety

  // ----- snapshots ---------------------------------------------------------------------

  /** The ring splits at `k` into what the client has seen and what it has not. */
  ghost predicate SplitsAt(samples: seq<Sample>, after: nat, k: int) {
    && 0 <= k <= |samples|
    && (forall i | 0 <= i < k :: samples[i].sequence <= after)
    && (forall i | k <= i < |samples| :: samples[i].sequence > after)
  }

  /** In an ordered ring the unseen samples are a suffix. */
  lemma {:induction false} NewerIsSuffix(samples: seq<Sample>, after: nat)
    requires Ordered(samples)
    ensures exists k :: SplitsAt(samples, after, k) && NewerThan(samples, after) == samples[k..]
  {
    if samples == [] {
      assert SplitsAt(samples, after, 0);
    } else if samples[0].sequence > after {
      assert SplitsAt(samples, after, 0);
      AllNewer(samples, after);
      assert samples[0..] == samples;
    } else {
      SuffixOrdered(samples, 1);
      NewerIsSuffix(samples[1..], after);
      var k :| SplitsAt(samples[1..], after, k) && NewerThan(samples[1..], after) == samples[1..][k..];
      SplitShifts(samples, after, k);
      assert samples[1..][k..] == samples[k + 1..];
    }
  }

  lemma SplitShifts(samples: seq<Sample>, after: nat, k: int)
    requires samples != [] && samples[0].sequence <= after && SplitsAt(samples[1..], after, k)
    ensures SplitsAt(samples, after, k + 1)
  {
    forall i | 0 < i < |samples|
      ensures samples[i].sequence <= after <==> i < k + 1
    {
      assert samples[i] == samples[1..][i - 1];
    }
  }

  lemma {:induction false} AllNewer(samples: seq<Sample>, after: nat)
    requires forall i | 0 <= i < |samples| :: samples[i].sequence > after
    ensures NewerThan(samples, after) == samples
  {
    if samples != [] {
      AllNewer(samples[1..], after);
    }
  }

  /** What a viewer of a reachable broker is shown: the unseen suffix of the ring of the
      current session and epoch, live exactly while the newest sample is under three seconds old. */
  lemma SnapshotShows(run: seq<Event>, i: nat, id: int, identity: string, owner: string, lease: string, after: nat, at: Time, denied: set<string>)
    requires i <= |run|
    requires Snapshot(At(run, i), id, identity, owner, lease, after, at, denied).1.Some?
    requires Snapshot(At(run, i), id, identity, owner, lease, after, at, denied).1.value.status != Expired
    ensures var (c, view) := Snapshot(At(run, i), id, identity, owner, lease, after, at, denied);
      && id in c.nodes && lease in c.nodes[id].viewers
      && c.nodes[id].viewers[lease].owner == owner && at < c.nodes[id].viewers[lease].until
      && var ring := c.nodes[id].samples;
      && FromEpoch(ring, c.nodes[id].session, c.nodes[id].epoch)
      && (exists k :: SplitsAt(ring, after, k) && view.value.samples == ring[k..])
      && (view.value.status == Live ==>
            && ring != [] && c.nodes[id].running
            && ring[|ring| - 1].sampledAt > at - 3_000
            && view.value.latest == ring[|ring| - 1].sequence)
      && (ring != [] && c.nodes[id].acceptedAt <= at ==>
            (view.value.status == Live <==> at < Min(c.nodes[id].acceptedAt, ring[|ring| - 1].sampledAt) + 3_000))
  {
    hide At, Prune, Refresh, ViewOf, RingOk, SessionsOk, TokensOk, FromEpoch, SplitsAt;
    var b := At(run, i);
    RunKeepsRecords(run, i);
    PruneKeepsRecords(b, at);
    var p := Prune(b, at);
    RefreshKeepsRecords(p, id, at, denied);
    var c := Refresh(p, id, at, denied);
    RecordIsOk(c, id);
    RefreshUnexpired(p, id, at, denied);
    ViewShows(c.nodes[id], after, at);
  }

  /** The view of a well-formed ring. */
  lemma ViewShows(n: Record, after: nat, at: Time)
    requires RingOk(n)
    ensures var view, ring := ViewOf(n, after, at), n.samples;
      && FromEpoch(ring, n.session, n.epoch)
      && (exists k :: SplitsAt(ring, after, k) && view.samples == ring[k..])
      && (view.status == Live ==>
            && ring != [] && n.running
            && ring[|ring| - 1].sampledAt > at - 3_000
            && view.latest == ring[|ring| - 1].sequence)
      && (ring != [] && n.acceptedAt <= at ==>
            (view.status == Live <==> at < Min(n.acceptedAt, ring[|ring| - 1].sampledAt) + 3_000))
      && (ring == [] ==> view.status == (if at - n.capabilityAt > 70_000 then Stale else Waiting) && view.latest == 0)
      && (ring != [] ==> view.latest == ring[|ring| - 1].sequence && (view.status == Live || view.status == Stale))
      && view.epoch == Some(n.epoch) && view.freshFor == (if view.status == Live then n.freshUntil - at else 0)
  {
    hide FromEpoch, Ordered;
    NewerIsSuffix(n.samples, after);
  }

  lemma RefreshUnexpired(b: Broker, id: int, at: Time, denied: set<string>)
    requires id in b.nodes
    ensures var n := Refresh(b, id, at, denied).nodes[id];
      && (forall k | k in n.viewers :: at < n.viewers[k].until && k !in denied)
      && n.running == (n.viewers != map[] && n.session != "")
  {
  }

  // ----- samples -----------------------------------------------------------------------

  ghost predicate Watched(n: Record, at: Time) {
    exists v | v in n.viewers :: at < n.viewers[v].until
  }

  /** A sample accepted into a node's ring, with a viewer that has not expired. */
  ghost predicate AcceptedAt(run: seq<Event>, k: nat, id: int, s: Sample)
    requires k < |run|
  {
    && run[k].SampleEvent? && run[k].id == id && run[k].sample == s
    && RecordSample(At(run, k), id, run[k].identity, s, run[k].at, run[k].denied).1 == None
    && id in At(run, k + 1).nodes
    && Watched(At(run, k + 1).nodes[id], run[k].at)
  }

  lemma AcceptNeedsViewer(b: Broker, id: int, identity: string, s: Sample, at: Time, denied: set<string>)
    requires RecordSample(b, id, identity, s, at, denied).1 == None
    ensures var c := RecordSample(b, id, identity, s, at, denied).0;
      id in c.nodes && Watched(c.nodes[id], at)
  {
    hide Prune, Refresh;
    var p := Prune(b, at);
    RefreshUnexpired(p, id, at, denied);
    var n := Refresh(p, id, at, denied).nodes[id];
    var v :| v in n.viewers;
    assert at < Append(n, s, at).viewers[v].until;
  }

  /** A ring entry is old, or the sample this step accepted. */
  ghost predicate OldOrAccepted(b: Broker, e: Event, id: int, s: Sample) {
    || (id in b.nodes && s in b.nodes[id].samples)
    || (e.SampleEvent? && e.id == id && e.sample == s && RecordSample(b, id, e.identity, s, e.at, e.denied).1 == None)
  }

  lemma PruneSamples(b: Broker, at: Time, id: int)
    requires id in Prune(b, at).nodes
    ensures id in b.nodes && Prune(b, at).nodes[id].samples == b.nodes[id].samples
  {
  }

  lemma EnsureSamples(b: Broker, id: int, identity: string, at: Time, o: int, s: Sample)
    requires o in Ensure(b, id, identity, at).nodes && s in Ensure(b, id, identity, at).nodes[o].samples
    ensures o in b.nodes && s in b.nodes[o].samples
  {
  }

  lemma RefreshSamples(b: Broker, id: int, at: Time, denied: set<string>, o: int, s: Sample)
    requires id in b.nodes && o in b.nodes && s in Refresh(b, id, at, denied).nodes[o].samples
    ensures s in b.nodes[o].samples
  {
  }

  lemma DropViewerSamples(b: Broker, id: int, lease: string, at: Time, o: int, s: Sample)
    requires id in b.nodes && o in b.nodes && s in DropViewer(b, id, lease, at).nodes[o].samples
    ensures s in b.nodes[o].samples
  {
  }

  lemma ControlRecordSamples(b: Broker, id: int, session: string, echo: int, at: Time, denied: set<string>, o: int, s: Sample)
    requires id in b.nodes && o in b.nodes && s in ControlRecord(b, id, session, echo, at, denied).0.nodes[o].samples
    ensures s in b.nodes[o].samples
  {
    hide Refresh, Accepts;
    var n := b.nodes[id];
    RefreshCapability(b, id, n, b.next, at, denied, o, s);
    RefreshCapability(b, id, TakeOver(n, session, at, b.next), b.next + 2, at, denied, o, s);
    assert b == b.(nodes := b.nodes[id := n], next := b.next);
  }

  lemma RefreshCapability(b: Broker, id: int, m: Record, next: Token, at: Time, denied: set<string>, o: int, s: Sample)
    requires id in b.nodes && o in b.nodes && (m.samples == b.nodes[id].samples || m.samples == [])
    ensures var c := b.(nodes := b.nodes[id := m], next := next);
      s in Activate(c, id, at, denied).0.nodes[o].samples ==> s in b.nodes[o].samples
  {
    hide Refresh;
    var c := b.(nodes := b.nodes[id := m], next := next);
    var d := c.(nodes := c.nodes[id := m.(capabilityAt := at)]);
    if s in Refresh(d, id, at, denied).nodes[o].samples {
      RefreshSamples(d, id, at, denied, o, s);
    }
  }

  lemma LeaseRecordSamples(b: Broker, id: int, owner: string, principal: int, lease: string, renew: bool, at: Time, denied: set<string>, o: int, s: Sample)
    requires id in b.nodes && o in b.nodes && s in LeaseRecord(b, id, owner, principal, lease, renew, at, denied).0.nodes[o].samples
    ensures s in b.nodes[o].samples
  {
    hide GrantViewer, OverLimits;
    if lease in b.nodes[id].viewers {
      GrantSamples(b, id, lease, b.nodes[id].viewers[lease].(until := at + VIEWER_TTL), at, denied, o, s);
    } else {
      GrantSamples(b.(next := b.next + 1), id, lease, Viewer(owner, principal, at + VIEWER_TTL, b.next), at, denied, o, s);
    }
  }

  lemma GrantSamples(b: Broker, id: int, lease: string, v: Viewer, at: Time, denied: set<string>, o: int, s: Sample)
    requires id in b.nodes && o in b.nodes
    ensures s in GrantViewer(b, id, lease, v, at, denied).nodes[o].samples ==> s in b.nodes[o].samples
  {
    hide Refresh;
    var n := b.nodes[id];
    var c := b.(nodes := b.nodes[id := n.(viewers := n.viewers[lease := v])]);
    if s in Refresh(c, id, at, denied).nodes[o].samples {
      RefreshSamples(c, id, at, denied, o, s);
    }
  }

  lemma PollSamples(b: Broker, node: int, identity: string, session: string, echo: int, at: Time, denied: set<string>, id: int, s: Sample)
    requires var c := Control(b, node, identity, session, echo, at, denied).0; id in c.nodes && s in c.nodes[id].samples
    ensures id in b.nodes && s in b.nodes[id].samples
  {
    hide Prune, Ensure, ControlRecord;
    var c := Ensure(Prune(b, at), node, identity, at);
    if node in c.nodes {
      ControlRecordSamples(c, node, session, echo, at, denied, id, s);
    }
    EnsureSamples(Prune(b, at), node, identity, at, id, s);
    PruneSamples(b, at, id);
  }

  lemma LeaseSamples(b: Broker, node: int, identity: string, owner: string, principal: int, lease: string, renew: bool, at: Time, denied: set<string>, id: int, s: Sample)
    requires var c := Lease(b, node, identity, owner, principal, lease, renew, at, denied).0; id in c.nodes && s in c.nodes[id].samples
    ensures id in b.nodes && s in b.nodes[id].samples
  {
    hide Prune, Ensure, LeaseRecord, WellFormedId;
    if WellFormedId(lease) {
      var c := Ensure(Prune(b, at), node, identity, at);
      if node in c.nodes {
        LeaseRecordSamples(c, node, owner, principal, lease, renew, at, denied, id, s);
      }
      EnsureSamples(Prune(b, at), node, identity, at, id, s);
    }
    PruneSamples(b, at, id);
  }

  lemma StepSamples(b: Broker, e: Event, id: int, s: Sample)
    requires id in Step(b, e).nodes && s in Step(b, e).nodes[id].samples
    ensures OldOrAccepted(b, e, id, s)
  {
    hide Prune, Refresh, Control, Lease, DropViewer, WellFormedId;
    match e
    case PollEvent(node, identity, session, echo, at, denied) => PollSamples(b, node, identity, session, echo, at, denied, id, s);
    case LeaseEvent(node, identity, owner, principal, lease, renew, at, denied) =>
      LeaseSamples(b, node, identity, owner, principal, lease, renew, at, denied, id, s);
    case ReleaseEvent(node, identity, owner, lease, at) =>
      PruneSamples(b, at, id);
      var p := Prune(b, at);
      var q := p.(tombstones := p.tombstones[LeaseKey(node, owner, lease) := at + TOMBSTONE_TTL]);
      if node in p.nodes && s in DropViewer(q, node, lease, at).nodes[id].samples {
        DropViewerSamples(q, node, lease, at, id, s);
      }
    case SnapshotEvent(node, identity, owner, lease, after, at, denied) =>
      PruneSamples(b, at, id);
      if node in Prune(b, at).nodes && s in Refresh(Prune(b, at), node, at, denied).nodes[id].samples {
        RefreshSamples(Prune(b, at), node, at, denied, id, s);
      }
    case SampleEvent(node, identity, sample, at, denied) =>
      PruneSamples(b, at, id);
      if node in Prune(b, at).nodes && s in Refresh(Prune(b, at), node, at, denied).nodes[id].samples {
        RefreshSamples(Prune(b, at), node, at, denied, id, s);
      }
    case TimerEvent(node, birth, lease, serial, expires, at) =>
      if node in b.nodes && s in DropViewer(b, node, lease, at).nodes[id].samples {
        DropViewerSamples(b, node, lease, at, id, s);
      }
    case ResetEvent =>
  }

  /** Every sample in the ring of a reachable broker was accepted, for that node, while an
      unexpired viewer was watching. */
  lemma {:induction false} SamplesWereWatched(run: seq<Event>, i: nat, id: int, s: Sample)
    requires i <= |run| && id in At(run, i).nodes && s in At(run, i).nodes[id].samples
    ensures exists k: nat | k < i :: AcceptedAt(run, k, id, s)
  {
    hide Step, OldOrAccepted, AcceptedAt;
    if i > 0 {
      StepSamples(At(run, i - 1), run[i - 1], id, s);
      AcceptedNowOrBefore(run, i - 1, id, s);
      if !AcceptedAt(run, i - 1, id, s) {
        SamplesWereWatched(run, i - 1, id, s);
      }
    }
  }

  lemma AcceptedNowOrBefore(run: seq<Event>, i: nat, id: int, s: Sample)
    requires i < |run| && OldOrAccepted(At(run, i), run[i], id, s)
    ensures AcceptedAt(run, i, id, s) || (id in At(run, i).nodes && s in At(run, i).nodes[id].samples)
  {
    hide RecordSample;
    var b, e := At(run, i), run[i];
    if !(id in b.nodes && s in b.nodes[id].samples) {
      AcceptNeedsViewer(b, id, e.identity, s, e.at, e.denied);
      assert At(run, i + 1) == RecordSample(b, id, e.identity, s, e.at, e.denied).0;
    }
  }

  // ----- leases ------------------------------------------------------------------------

  lemma {:induction false} LatestIsMax(vs: map<string, Viewer>)
    ensures vs != map[] ==> exists k | k in vs :: vs[k].until == Latest(vs)
    ensures forall k | k in vs :: vs[k].until <= Latest(vs)
    decreases |vs|
  {
    if vs != map[] {
      var k :| k in vs && Latest(vs) == (var rest := Latest(vs - {k});
        if vs == map[k := vs[k]] || vs[k].until > rest then vs[k].until else rest);
      LatestIsMax(vs - {k});
      if vs != map[k := vs[k]] {
        assert vs - {k} != map[];
        var j :| j in vs - {k} && (vs - {k})[j].until == Latest(vs - {k});
        assert vs[j].until == Latest(vs - {k});
      }
      forall j | j in vs
        ensures vs[j].until <= Latest(vs)
      {
        if j != k {
          assert j in vs - {k} && (vs - {k})[j] == vs[j];
        }
      }
    }
  }

  /** A command never runs past fifteen seconds or the last unexpired lease, and only for
      the session that is current. */
  lemma CommandBoundedByLease(b: Broker, id: int, identity: string, session: string, echo: int, at: Time, denied: set<string>)
    requires Control(b, id, identity, session, echo, at, denied).1.Command?
    requires Control(b, id, identity, session, echo, at, denied).1.remaining != 0
    ensures var (c, reply) := Control(b, id, identity, session, echo, at, denied);
      && 0 < reply.remaining <= 15_000
      && id in c.nodes && c.nodes[id].session == session && reply.epoch == c.nodes[id].epoch
      && exists k | k in c.nodes[id].viewers :: at + reply.remaining <= c.nodes[id].viewers[k].until
  {
    hide Prune, Ensure, Refresh, Accepts, TakeOver;
    var c := Ensure(Prune(b, at), id, identity, at);
    var n := c.nodes[id];
    var m := if n.session == session then n else TakeOver(n, session, at, c.next);
    var d := c.(nodes := c.nodes[id := m.(capabilityAt := at)], next := if n.session == session then c.next else c.next + 2);
    RefreshUnexpired(d, id, at, denied);
    TakeOverSession(n, session, at, c.next);
    RefreshSession(d, id, at, denied);
    LatestIsMax(Refresh(d, id, at, denied).nodes[id].viewers);
    if n.session == session {
      assert d == c.(nodes := c.nodes[id := n.(capabilityAt := at)]);
    } else {
      assert d == c.(nodes := c.nodes[id := m][id := m.(capabilityAt := at)], next := c.next + 2);
    }
  }

  lemma TakeOverSession(n: Record, session: string, at: Time, next: Token)
    ensures TakeOver(n, session, at, next).session == session
  {
  }

  lemma RefreshSession(b: Broker, id: int, at: Time, denied: set<string>)
    requires id in b.nodes
    ensures Refresh(b, id, at, denied).nodes[id].session == b.nodes[id].session
  {
  }
}
