/** What the broker must not forget: displaced processes, released leases, and the
    order of its own commands. */
module DiagnosticsBarriers {
  import opened Collections
  import opened DiagnosticsModel
  import opened DiagnosticsSafety
  import opened DiagnosticsTakeover

  // ----- one record moves only onward ------------------------------------------------

  /** A retirement that is not over at `at` is still there, with its deadline. */
  ghost predicate Remembers(m: Record, n: Record, at: Time) {
    forall s | s in m.retired && at < m.retired[s] :: s in n.retired && n.retired[s] == m.retired[s]
  }

  /** Generations only grow, and one generation has one epoch, head and session. */
  ghost predicate Sequenced(m: Record, n: Record) {
    && m.generation <= n.generation
    && (m.generation == n.generation ==> n.epoch == m.epoch && n.head == m.head && n.session == m.session)
  }

  ghost predicate Onward(m: Record, n: Record, at: Time) {
    n.birth == m.birth && Remembers(m, n, at) && Sequenced(m, n)
  }

  lemma OnwardTransitive(m: Record, n: Record, p: Record, at: Time)
    requires Onward(m, n, at) && Onward(n, p, at)
    ensures Onward(m, p, at)
  {
  }

  lemma PruneOnward(b: Broker, at: Time, id: int)
    requires id in Prune(b, at).nodes
    ensures id in b.nodes && Onward(b.nodes[id], Prune(b, at).nodes[id], at)
  {
  }

  lemma UpdateOnward(n: Record, at: Time, live: bool, next: Token)
    ensures Onward(n, UpdateRunning(n, at, live, next).0, at)
  {
  }

  lemma RefreshOnward(b: Broker, id: int, at: Time, denied: set<string>, o: int)
    requires id in b.nodes && o in b.nodes
    ensures Onward(b.nodes[o], Refresh(b, id, at, denied).nodes[o], at)
  {
    hide UpdateRunning;
    var n := ValidViewers(b.nodes[id], at, denied);
    UpdateOnward(n, at, n.viewers != map[], b.next);
  }

  lemma DropViewerOnward(b: Broker, id: int, lease: string, at: Time, o: int)
    requires id in b.nodes && o in b.nodes
    ensures Onward(b.nodes[o], DropViewer(b, id, lease, at).nodes[o], at)
  {
    hide UpdateRunning;
    UpdateOnward(b.nodes[id].(viewers := b.nodes[id].viewers - {lease}), at, false, b.next);
  }

  lemma ActivateOnward(b: Broker, id: int, at: Time, denied: set<string>, o: int)
    requires id in b.nodes && o in b.nodes
    ensures Onward(b.nodes[o], Activate(b, id, at, denied).0.nodes[o], at)
  {
    hide Refresh;
    RefreshOnward(b.(nodes := b.nodes[id := b.nodes[id].(capabilityAt := at)]), id, at, denied, o);
  }

  /** The displaced session is retired for ten minutes and the generation moves. */
  lemma TakeOverOnward(n: Record, session: string, at: Time, next: Token)
    requires n.session !in n.retired
    ensures var m := TakeOver(n, session, at, next);
      && Onward(n, m, at) && n.generation < m.generation
      && (n.session != "" ==> n.session in m.retired && m.retired[n.session] == at + 600_000)
  {
  }

  /** A session that a poll displaces is retired by it. */
  ghost predicate Displaced(m: Record, n: Record, at: Time) {
    n.session != m.session && m.session != "" ==> m.session in n.retired && n.retired[m.session] == at + 600_000
  }

  lemma ControlRecordOnward(b: Broker, id: int, session: string, echo: int, at: Time, denied: set<string>, o: int)
    requires id in b.nodes && o in b.nodes && b.nodes[id].session !in b.nodes[id].retired
    ensures var c := ControlRecord(b, id, session, echo, at, denied).0;
      Onward(b.nodes[o], c.nodes[o], at) && Displaced(b.nodes[o], c.nodes[o], at)
  {
    hide Activate, TakeOver;
    var n := b.nodes[id];
    if session in n.retired {
    } else if n.session == session {
      ActivateOnward(b, id, at, denied, o);
      ActivateQuiet(b, id, at, denied, o);
    } else if Accepts(n, session, echo, at) {
      TakeOverOnward(n, session, at, b.next);
      var t := b.(nodes := b.nodes[id := TakeOver(n, session, at, b.next)], next := b.next + 2);
      ActivateOnward(t, id, at, denied, o);
      ActivateQuiet(t, id, at, denied, o);
    }
  }

  lemma LeaseRecordOnward(b: Broker, id: int, owner: string, principal: int, lease: string, renew: bool, at: Time, denied: set<string>, o: int)
    requires id in b.nodes && o in b.nodes
    ensures Onward(b.nodes[o], LeaseRecord(b, id, owner, principal, lease, renew, at, denied).0.nodes[o], at)
  {
    hide GrantViewer, OverLimits;
    if lease in b.nodes[id].viewers {
      GrantOnward(b, id, lease, b.nodes[id].viewers[lease].(until := at + VIEWER_TTL), at, denied, o);
    } else {
      GrantOnward(b.(next := b.next + 1), id, lease, Viewer(owner, principal, at + VIEWER_TTL, b.next), at, denied, o);
    }
  }

  lemma GrantOnward(b: Broker, id: int, lease: string, v: Viewer, at: Time, denied: set<string>, o: int)
    requires id in b.nodes && o in b.nodes
    ensures Onward(b.nodes[o], GrantViewer(b, id, lease, v, at, denied).nodes[o], at)
  {
    hide Refresh;
    var n := b.nodes[id];
    RefreshOnward(b.(nodes := b.nodes[id := n.(viewers := n.viewers[lease := v])]), id, at, denied, o);
  }

  /** Looking a record up leaves it as it was, or puts a new one in its place. */
  lemma PrepareOnward(b: Broker, id: int, identity: string, at: Time, o: int)
    requires RecordsOk(b) && o in b.nodes && o in Ensure(Prune(b, at), id, identity, at).nodes
    requires Ensure(Prune(b, at), id, identity, at).nodes[o].birth == b.nodes[o].birth
    ensures Onward(b.nodes[o], Ensure(Prune(b, at), id, identity, at).nodes[o], at)
    ensures Ensure(Prune(b, at), id, identity, at).nodes[o].session == b.nodes[o].session
  {
    hide Prune, RingOk, SessionsOk;
    PruneNext(b, at);
    assert b.nodes[o].birth < b.next;
    if o in Prune(b, at).nodes {
      PruneOnward(b, at, o);
      PruneQuiet(b, at, o);
    }
  }

  lemma PollOnward(b: Broker, id: int, identity: string, session: string, echo: int, at: Time, denied: set<string>, o: int)
    requires RecordsOk(b) && o in b.nodes
    requires o in Control(b, id, identity, session, echo, at, denied).0.nodes
    requires Control(b, id, identity, session, echo, at, denied).0.nodes[o].birth == b.nodes[o].birth
    ensures var c := Control(b, id, identity, session, echo, at, denied).0;
      Onward(b.nodes[o], c.nodes[o], at) && Displaced(b.nodes[o], c.nodes[o], at)
  {
    hide Prune, Ensure, ControlRecord, RingOk, TokensOk;
    var c := Ensure(Prune(b, at), id, identity, at);
    PruneKeepsRecords(b, at);
    EnsureKeepsRecords(Prune(b, at), id, identity, at);
    if id in c.nodes {
      ControlRecordOnward(c, id, session, echo, at, denied, o);
    }
    PrepareOnward(b, id, identity, at, o);
  }

  lemma LeaseOnward(b: Broker, id: int, identity: string, owner: string, principal: int, lease: string, renew: bool, at: Time, denied: set<string>, o: int)
    requires RecordsOk(b) && o in b.nodes
    requires o in Lease(b, id, identity, owner, principal, lease, renew, at, denied).0.nodes
    requires Lease(b, id, identity, owner, principal, lease, renew, at, denied).0.nodes[o].birth == b.nodes[o].birth
    ensures Onward(b.nodes[o], Lease(b, id, identity, owner, principal, lease, renew, at, denied).0.nodes[o], at)
  {
    hide Prune, Ensure, LeaseRecord, RecordsOk, WellFormedId;
    if !WellFormedId(lease) {
      PruneOnward(b, at, o);
    } else {
      var c := Ensure(Prune(b, at), id, identity, at);
      if id in c.nodes {
        LeaseRecordOnward(c, id, owner, principal, lease, renew, at, denied, o);
      }
      PrepareOnward(b, id, identity, at, o);
    }
  }

  lemma StepOnward(b: Broker, e: Event, id: int)
    requires RecordsOk(b) && !e.ResetEvent? && id in b.nodes && id in Step(b, e).nodes
    requires Step(b, e).nodes[id].birth == b.nodes[id].birth
    ensures Onward(b.nodes[id], Step(b, e).nodes[id], e.at)
    ensures e.PollEvent? ==> Displaced(b.nodes[id], Step(b, e).nodes[id], e.at)
  {
    hide Control, Lease, Prune, Refresh, DropViewer, RecordsOk, Remembers, Sequenced, Displaced;
    match e
    case PollEvent(node, identity, session, echo, at, denied) =>
      PollOnward(b, node, identity, session, echo, at, denied, id);
    case LeaseEvent(node, identity, owner, principal, lease, renew, at, denied) =>
      LeaseOnward(b, node, identity, owner, principal, lease, renew, at, denied, id);
    case ReleaseEvent(node, identity, owner, lease, at) =>
      ReleaseOnward(b, node, identity, owner, lease, at, id);
    case SnapshotEvent(node, identity, owner, lease, after, at, denied) =>
      PruneOnward(b, at, id);
      if node in Prune(b, at).nodes {
        RefreshOnward(Prune(b, at), node, at, denied, id);
        OnwardAfterPrune(b, Refresh(Prune(b, at), node, at, denied), at, id);
      }
    case SampleEvent(node, identity, s, at, denied) =>
      SampleOnward(b, node, identity, s, at, denied, id);
    case TimerEvent(node, birth, lease, serial, expires, at) =>
      TimerOnward(b, node, birth, lease, serial, expires, at, id);
  }

  lemma OnwardAfterPrune(b: Broker, c: Broker, at: Time, id: int)
    requires id in Prune(b, at).nodes && id in c.nodes && Onward(Prune(b, at).nodes[id], c.nodes[id], at)
    ensures id in b.nodes && Onward(b.nodes[id], c.nodes[id], at)
  {
    hide Prune;
    PruneOnward(b, at, id);
    OnwardTransitive(b.nodes[id], Prune(b, at).nodes[id], c.nodes[id], at);
  }

  lemma ReleaseOnward(b: Broker, node: int, identity: string, owner: string, lease: string, at: Time, id: int)
    requires id in b.nodes && id in Release(b, node, identity, owner, lease, at).0.nodes
    ensures Onward(b.nodes[id], Release(b, node, identity, owner, lease, at).0.nodes[id], at)
  {
    hide Prune, DropViewer, WellFormedId, Onward;
    var p := Prune(b, at);
    var q := p.(tombstones := p.tombstones[LeaseKey(node, owner, lease) := at + 300_000]);
    PruneOnward(b, at, id);
    if Owned(p, node, identity, owner, lease) {
      DropViewerOnward(q, node, lease, at, id);
      OnwardAfterPrune(b, DropViewer(q, node, lease, at), at, id);
    }
  }

  lemma SampleOnward(b: Broker, node: int, identity: string, s: Sample, at: Time, denied: set<string>, id: int)
    requires id in b.nodes && id in RecordSample(b, node, identity, s, at, denied).0.nodes
    ensures Onward(b.nodes[id], RecordSample(b, node, identity, s, at, denied).0.nodes[id], at)
  {
    hide Prune, Refresh, ValidSample, LastN;
    PruneOnward(b, at, id);
    if node in Prune(b, at).nodes {
      RefreshOnward(Prune(b, at), node, at, denied, id);
      OnwardAfterPrune(b, Refresh(Prune(b, at), node, at, denied), at, id);
    }
  }

  lemma TimerOnward(b: Broker, node: int, birth: Token, lease: string, serial: Token, expires: Time, at: Time, id: int)
    requires id in b.nodes
    ensures id in Expire(b, node, birth, lease, serial, expires, at).nodes
    ensures Onward(b.nodes[id], Expire(b, node, birth, lease, serial, expires, at).nodes[id], at)
  {
    hide DropViewer;
    if node in b.nodes {
      DropViewerOnward(b, node, lease, at, id);
    }
  }

  // ----- whole runs: commands are ordered ------------------------------------------------

  /** The record of `id` is one and the same object from step `i` to step `j`. */
  ghost predicate Survives(run: seq<Event>, i: nat, j: nat, id: int)
    requires i <= j <= |run|
  {
    && (forall k | i <= k <= j :: id in At(run, k).nodes)
    && (forall k | i <= k <= j :: At(run, k).nodes[id].birth == At(run, i).nodes[id].birth)
    && (forall k | i <= k < j :: !run[k].ResetEvent?)
  }

  lemma SurvivesLess(run: seq<Event>, i: nat, j: nat, id: int)
    requires i < j <= |run| && Survives(run, i, j, id)
    ensures Survives(run, i, j - 1, id) && !run[j - 1].ResetEvent?
    ensures id in At(run, j - 1).nodes && id in At(run, j).nodes
    ensures At(run, j).nodes[id].birth == At(run, j - 1).nodes[id].birth
  {
    hide At;
  }

  /** While a record lives its generation never falls, and two commands of one generation
      name the same epoch, head and session. */
  lemma {:induction false} GenerationsOrderCommands(run: seq<Event>, i: nat, j: nat, id: int)
    requires i <= j <= |run| && Survives(run, i, j, id)
    ensures id in At(run, i).nodes && id in At(run, j).nodes
    ensures Sequenced(At(run, i).nodes[id], At(run, j).nodes[id])
    decreases j
  {
    hide Step, RecordsOk, Remembers;
    if i < j {
      SurvivesLess(run, i, j, id);
      GenerationsOrderCommands(run, i, j - 1, id);
      RunKeepsRecords(run, j - 1);
      StepOnward(At(run, j - 1), run[j - 1], id);
    }
  }

  // ----- whole runs: a displaced process stays out -----------------------------------------

  lemma {:induction false} RetirementLasts(run: seq<Event>, i: nat, j: nat, id: int, s: string, deadline: Time)
    requires i <= j <= |run| && Survives(run, i, j, id)
    requires s in At(run, i).nodes[id].retired && At(run, i).nodes[id].retired[s] == deadline
    requires forall k | i <= k < j :: run[k].at < deadline
    ensures id in At(run, j).nodes && s in At(run, j).nodes[id].retired && At(run, j).nodes[id].retired[s] == deadline
    decreases j
  {
    hide Step, RecordsOk, Sequenced;
    if i < j {
      SurvivesLess(run, i, j, id);
      RetirementLasts(run, i, j - 1, id, s, deadline);
      RunKeepsRecords(run, j - 1);
      StepOnward(At(run, j - 1), run[j - 1], id);
    }
  }

  /** A poll from a retired session is told to stand by and changes no other standing. */
  lemma RetiredIsTurnedAway(b: Broker, id: int, session: string, echo: int, at: Time, denied: set<string>)
    requires id in b.nodes && session in b.nodes[id].retired && at < b.nodes[id].retired[session]
    requires !Idle(b.nodes[id], at)
    ensures var n := b.nodes[id];
      var (c, reply) := Control(b, id, n.identity, session, echo, at, denied);
      && reply == Command(None, n.epoch, n.generation, 0)
      && id in c.nodes && c.nodes[id].session == n.session && c.nodes[id].head == n.head
  {
  }

  /** A process displaced by a takeover cannot be the current one again for ten minutes,
      whatever it or anyone else sends, as long as the record of its node lives. */
  lemma DisplacedStaysOut(run: seq<Event>, i: nat, j: nat, id: int, session: string, displaced: string)
    requires i < j <= |run| && TakesOver(run, i, id, session)
    requires Survives(run, i, j, id) && displaced == At(run, i).nodes[id].session != ""
    requires forall k | i < k < j :: run[k].at < run[i].at + 600_000
    ensures id in At(run, j).nodes && displaced in At(run, j).nodes[id].retired
    ensures At(run, j).nodes[id].retired[displaced] == run[i].at + 600_000
    ensures At(run, j).nodes[id].session != displaced
  {
    hide Step, RecordsOk, Onward, TakesOver, Offered;
    TakesOverIsInstall(run, i, id, session);
    RunKeepsRecords(run, i);
    assert At(run, i + 1).nodes[id].birth == At(run, i).nodes[id].birth;
    StepOnward(At(run, i), run[i], id);
    assert At(run, i + 1) == Step(At(run, i), run[i]);
    SurvivesLater(run, i, j, id);
    RetirementLasts(run, i + 1, j, id, displaced, run[i].at + 600_000);
    SessionBounds(run, j, id);
  }

  /** And each of its polls in that time is answered with a command to stand by. */
  lemma DisplacedIsTurnedAway(run: seq<Event>, i: nat, j: nat, id: int, session: string, displaced: string)
    requires i < j < |run| && TakesOver(run, i, id, session)
    requires Survives(run, i, j, id) && displaced == At(run, i).nodes[id].session != ""
    requires forall k | i < k <= j :: !run[k].ResetEvent? && run[k].at < run[i].at + 600_000
    requires run[j].PollEvent? && run[j].id == id && run[j].session == displaced
    requires run[j].identity == At(run, j).nodes[id].identity && !Idle(At(run, j).nodes[id], run[j].at)
    ensures var n, e := At(run, j).nodes[id], run[j];
      Control(At(run, j), id, e.identity, displaced, e.echo, e.at, e.denied).1 == Command(None, n.epoch, n.generation, 0)
  {
    hide Step, Control, Survives, TakesOver, Idle;
    DisplacedStaysOut(run, i, j, id, session, displaced);
    RetiredIsTurnedAway(At(run, j), id, displaced, run[j].echo, run[j].at, run[j].denied);
  }

  lemma SurvivesLater(run: seq<Event>, i: nat, j: nat, id: int)
    requires i < j <= |run| && Survives(run, i, j, id)
    ensures Survives(run, i + 1, j, id)
  {
    hide At;
    assert At(run, i + 1).nodes[id].birth == At(run, i).nodes[id].birth;
  }

  // ----- whole runs: a released lease stays dead -------------------------------------------

  /** The tombstones are those of `b`, less the expired ones. */
  ghost predicate Outlives(b: Broker, c: Broker, at: Time) {
    forall k | k in b.tombstones && at < b.tombstones[k] :: k in c.tombstones && c.tombstones[k] == b.tombstones[k]
  }

  lemma ControlRecordTombstones(b: Broker, id: int, session: string, echo: int, at: Time, denied: set<string>)
    requires id in b.nodes
    ensures ControlRecord(b, id, session, echo, at, denied).0.tombstones == b.tombstones
  {
    hide Refresh, TakeOver, Challenge, Accepts;
  }

  lemma LeaseRecordTombstones(b: Broker, id: int, owner: string, principal: int, lease: string, renew: bool, at: Time, denied: set<string>)
    requires id in b.nodes
    ensures LeaseRecord(b, id, owner, principal, lease, renew, at, denied).0.tombstones == b.tombstones
  {
    hide GrantViewer, OverLimits;
  }

  lemma PruneTombstones(b: Broker, at: Time)
    ensures Outlives(b, Prune(b, at), at)
  {
    hide Idle, PruneRecord;
  }

  lemma ControlOutlives(b: Broker, id: int, identity: string, session: string, echo: int, at: Time, denied: set<string>)
    ensures Outlives(b, Control(b, id, identity, session, echo, at, denied).0, at)
  {
    hide Prune, Ensure, ControlRecord;
    PruneTombstones(b, at);
    var c := Ensure(Prune(b, at), id, identity, at);
    if id in c.nodes {
      ControlRecordTombstones(c, id, session, echo, at, denied);
    }
  }

  lemma LeaseOutlives(b: Broker, id: int, identity: string, owner: string, principal: int, lease: string, renew: bool, at: Time, denied: set<string>)
    ensures Outlives(b, Lease(b, id, identity, owner, principal, lease, renew, at, denied).0, at)
  {
    hide Prune, Ensure, LeaseRecord, WellFormedId;
    PruneTombstones(b, at);
    var c := Ensure(Prune(b, at), id, identity, at);
    if id in c.nodes {
      LeaseRecordTombstones(c, id, owner, principal, lease, renew, at, denied);
    }
  }

  lemma ReadOutlives(b: Broker, e: Event)
    requires e.SnapshotEvent? || e.SampleEvent?
    ensures Outlives(b, Step(b, e), e.at)
  {
    hide Prune, Refresh, ViewOf, Append, ValidSample;
    PruneTombstones(b, e.at);
  }

  lemma ReleaseOutlives(b: Broker, id: int, identity: string, owner: string, lease: string, at: Time, key: LeaseKey)
    requires key in b.tombstones && at < b.tombstones[key]
    ensures var c := Release(b, id, identity, owner, lease, at).0;
      key in c.tombstones && (c.tombstones[key] == b.tombstones[key] || c.tombstones[key] == at + 300_000)
  {
    hide Prune, DropViewer, WellFormedId;
    PruneTombstones(b, at);
  }

  /** A tombstone outlives a step taken before its deadline; only a later release moves it. */
  lemma StepKeepsTombstone(b: Broker, e: Event, key: LeaseKey)
    requires !e.ResetEvent? && key in b.tombstones && e.at < b.tombstones[key]
    ensures key in Step(b, e).tombstones
    ensures Step(b, e).tombstones[key] == b.tombstones[key] || Step(b, e).tombstones[key] == e.at + 300_000
  {
    hide Control, Lease, Release, Snapshot, RecordSample, DropViewer;
    match e
    case PollEvent(id, identity, session, echo, at, denied) => ControlOutlives(b, id, identity, session, echo, at, denied);
    case LeaseEvent(id, identity, owner, principal, lease, renew, at, denied) =>
      LeaseOutlives(b, id, identity, owner, principal, lease, renew, at, denied);
    case ReleaseEvent(id, identity, owner, lease, at) => ReleaseOutlives(b, id, identity, owner, lease, at, key);
    case SnapshotEvent(_, _, _, _, _, _, _) => ReadOutlives(b, e);
    case SampleEvent(_, _, _, _, _) => ReadOutlives(b, e);
    case TimerEvent(_, _, _, _, _, _) =>
  }

  lemma {:induction false} TombstoneLasts(run: seq<Event>, i: nat, j: nat, key: LeaseKey, released: Time)
    requires i <= j <= |run|
    requires key in At(run, i).tombstones && At(run, i).tombstones[key] >= released + 300_000
    requires forall k | i <= k < j :: !run[k].ResetEvent?
    requires forall k | i <= k < j :: released <= run[k].at < released + 300_000
    ensures key in At(run, j).tombstones && At(run, j).tombstones[key] >= released + 300_000
    decreases j
  {
    hide Step;
    if i < j {
      TombstoneLasts(run, i, j - 1, key, released);
      StepKeepsTombstone(At(run, j - 1), run[j - 1], key);
    }
  }

  lemma TombstoneBars(b: Broker, id: int, identity: string, owner: string, principal: int, lease: string, renew: bool, at: Time, denied: set<string>)
    requires LeaseKey(id, owner, lease) in b.tombstones && at < b.tombstones[LeaseKey(id, owner, lease)]
    ensures Lease(b, id, identity, owner, principal, lease, renew, at, denied).1.LeaseRefused?
  {
    hide GrantViewer, OverLimits, WellFormedId, Idle, PruneRecord;
  }

  lemma ReleaseLeavesTombstone(b: Broker, id: int, identity: string, owner: string, lease: string, at: Time)
    requires Release(b, id, identity, owner, lease, at).1 == None
    ensures var c := Release(b, id, identity, owner, lease, at).0;
      && LeaseKey(id, owner, lease) in c.tombstones && c.tombstones[LeaseKey(id, owner, lease)] == at + 300_000
      && !Owned(c, id, identity, owner, lease)
  {
    hide Prune, WellFormedId;
  }

  /** Once a release is accepted, no request for that lease by that owner is granted for
      five minutes, even one that was sent before the release and arrives late. */
  lemma ReleasedStaysDead(run: seq<Event>, i: nat, j: nat)
    requires i < j < |run| && run[i].ReleaseEvent? && run[j].LeaseEvent?
    requires Release(At(run, i), run[i].id, run[i].identity, run[i].owner, run[i].lease, run[i].at).1 == None
    requires run[j].id == run[i].id && run[j].owner == run[i].owner && run[j].lease == run[i].lease
    requires forall k | i < k <= j :: !run[k].ResetEvent?
    requires forall k | i < k <= j :: run[i].at <= run[k].at < run[i].at + 300_000
    ensures var e := run[j];
      Lease(At(run, j), e.id, e.identity, e.owner, e.principal, e.lease, e.renew, e.at, e.denied).1.LeaseRefused?
  {
    hide Lease, Release, Control, Snapshot, RecordSample, Expire;
    var e, key := run[j], LeaseKey(run[i].id, run[i].owner, run[i].lease);
    ReleaseLeavesTombstone(At(run, i), run[i].id, run[i].identity, run[i].owner, run[i].lease, run[i].at);
    assert At(run, i + 1) == Release(At(run, i), run[i].id, run[i].identity, run[i].owner, run[i].lease, run[i].at).0;
    TombstoneLasts(run, i + 1, j, key, run[i].at);
    TombstoneBars(At(run, j), e.id, e.identity, e.owner, e.principal, e.lease, e.renew, e.at, e.denied);
  }
}
