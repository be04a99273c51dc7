/** Process takeover of the live-diagnostics broker over whole runs. */
module DiagnosticsTakeover {
  import opened Collections
  import opened DiagnosticsModel
  import opened DiagnosticsSafety

  // ----- what one step does to one record ------------------------------------------

  /** The same record, with no new candidate, head or session. */
  ghost predicate Quiet(m: Record, n: Record) {
    && n.birth == m.birth && n.identity == m.identity && n.head == m.head && n.session == m.session
    && n.candidates.Keys <= m.candidates.Keys
    && forall s | s in n.candidates :: n.candidates[s] == m.candidates[s]
  }

  /** A record made by this step. */
  ghost predicate Newborn(n: Record, next: Token) {
    n.birth >= next && n.head >= next && n.session == "" && n.candidates == map[]
  }

  ghost predicate Overtaken(m: Record, n: Record, session: string, echo: int, next: Token) {
    && session != m.session && session in m.candidates
    && m.candidates[session].challenge == echo
    && m.candidates[session].parent == m.head
    && n.session == session && n.head >= next
    && Quiet(m.(head := n.head, session := session), n)
  }

  /** The challenge a poll is answered with. */
  ghost function Offered(b: Broker, e: Event): Option<Token> {
    if e.PollEvent? then
      var reply := Control(b, e.id, e.identity, e.session, e.echo, e.at, e.denied).1;
      if reply.Command? then reply.challenge else None
    else None
  }

  lemma PruneQuiet(b: Broker, at: Time, id: int)
    requires id in Prune(b, at).nodes
    ensures id in b.nodes && Quiet(b.nodes[id], Prune(b, at).nodes[id])
    ensures Prune(b, at).next == b.next
  {
  }

  lemma EnsureKind(b: Broker, id: int, identity: string, at: Time, o: int)
    requires o in Ensure(b, id, identity, at).nodes
    ensures var c := Ensure(b, id, identity, at);
      && b.next <= c.next
      && (|| (o in b.nodes && Quiet(b.nodes[o], c.nodes[o]))
          || (o == id && Newborn(c.nodes[o], b.next)))
  {
    var c := Ensure(b, id, identity, at);
    if o != id {
      assert o in b.nodes && c.nodes[o] == b.nodes[o];
    } else if id in b.nodes && b.nodes[id].identity == identity {
      assert c.nodes[o] == b.nodes[o].(touchedAt := at);
    } else {
      assert c.nodes[o] == NewRecord(identity, at, b.next);
    }
  }

  lemma RefreshQuiet(b: Broker, id: int, at: Time, denied: set<string>, o: int)
    requires id in b.nodes && o in b.nodes
    ensures var c := Refresh(b, id, at, denied); o in c.nodes && Quiet(b.nodes[o], c.nodes[o]) && b.next <= c.next
  {
  }

  lemma DropViewerQuiet(b: Broker, id: int, lease: string, at: Time, o: int)
    requires id in b.nodes && o in b.nodes
    ensures var c := DropViewer(b, id, lease, at); o in c.nodes && Quiet(b.nodes[o], c.nodes[o]) && b.next <= c.next
  {
  }

  lemma ActivateQuiet(b: Broker, id: int, at: Time, denied: set<string>, o: int)
    requires id in b.nodes && o in b.nodes
    ensures var (c, reply) := Activate(b, id, at, denied);
      && o in c.nodes && Quiet(b.nodes[o], c.nodes[o]) && b.next <= c.next
      && c.nodes.Keys == b.nodes.Keys
      && reply.Command? && reply.challenge == None
  {
    hide Refresh;
    RefreshQuiet(b.(nodes := b.nodes[id := b.nodes[id].(capabilityAt := at)]), id, at, denied, o);
  }

  /** The four things a poll can do to a record. */
  lemma ControlRecordKind(b: Broker, id: int, session: string, echo: int, at: Time, denied: set<string>, o: int)
    requires id in b.nodes && o in b.nodes
    ensures var (c, reply) := ControlRecord(b, id, session, echo, at, denied);
      && c.nodes.Keys == b.nodes.Keys && b.next <= c.next
      && (|| Quiet(b.nodes[o], c.nodes[o])
          || (o == id && reply.Command? && session in c.nodes[o].candidates
              && reply.challenge == Some(c.nodes[o].candidates[session].challenge)
              && c.nodes[o].candidates[session].parent == c.nodes[o].head
              && Quiet(b.nodes[o], c.nodes[o].(candidates := c.nodes[o].candidates - {session})))
          || (o == id && reply.Command? && reply.challenge == None && Overtaken(b.nodes[o], c.nodes[o], session, echo, b.next)))
  {
    hide Activate;
    var n := b.nodes[id];
    if session in n.retired {
    } else if n.session == session {
      ActivateQuiet(b, id, at, denied, o);
    } else if Accepts(n, session, echo, at) {
      var t := b.(nodes := b.nodes[id := TakeOver(n, session, at, b.next)], next := b.next + 2);
      ActivateQuiet(t, id, at, denied, o);
    }
  }

  /** The record of `id` as it was before the step, or one made by the step. */
  ghost predicate Inherited(b: Broker, id: int, n: Record) {
    (id in b.nodes && Quiet(b.nodes[id], n)) || Newborn(n, b.next)
  }

  ghost predicate Issue(b: Broker, e: Event, id: int, n: Record) {
    && e.PollEvent? && e.id == id && n.identity == e.identity
    && e.session in n.candidates
    && Offered(b, e) == Some(n.candidates[e.session].challenge)
    && n.candidates[e.session].parent == n.head
    && Inherited(b, id, n.(candidates := n.candidates - {e.session}))
  }

  ghost predicate Install(b: Broker, e: Event, id: int, n: Record) {
    && e.PollEvent? && e.id == id && n.identity == e.identity
    && Offered(b, e) == None
    && id in b.nodes && Overtaken(b.nodes[id], n, e.session, e.echo, b.next)
  }

  lemma PrepareInherited(b: Broker, id: int, identity: string, at: Time, o: int)
    requires RecordsOk(b) && o in Ensure(Prune(b, at), id, identity, at).nodes
    ensures Inherited(b, o, Ensure(Prune(b, at), id, identity, at).nodes[o])
    ensures b.next <= Ensure(Prune(b, at), id, identity, at).next
    ensures o == id ==> Ensure(Prune(b, at), id, identity, at).nodes[o].identity == identity
  {
    hide Prune, Ensure, RecordOk;
    PruneKeepsRecords(b, at);
    EnsureKeepsRecords(Prune(b, at), id, identity, at);
    EnsureKind(Prune(b, at), id, identity, at, o);
    PruneNext(b, at);
    if o in Prune(b, at).nodes {
      PruneQuiet(b, at, o);
    }
  }

  lemma PruneNext(b: Broker, at: Time)
    ensures Prune(b, at).next == b.next
  {
  }

  lemma PollKind(b: Broker, id: int, identity: string, session: string, echo: int, at: Time, denied: set<string>, o: int)
    requires RecordsOk(b)
    requires o in Control(b, id, identity, session, echo, at, denied).0.nodes
    ensures var e := PollEvent(id, identity, session, echo, at, denied);
      var c := Control(b, id, identity, session, echo, at, denied).0;
      && b.next <= c.next
      && (Inherited(b, o, c.nodes[o]) || Issue(b, e, o, c.nodes[o]) || Install(b, e, o, c.nodes[o]))
  {
    hide Prune, Ensure, ControlRecord, RecordsOk;
    var c := Ensure(Prune(b, at), id, identity, at);
    PruneNext(b, at);
    if id !in c.nodes {
      PrepareInherited(b, id, identity, at, o);
    } else {
      ControlRecordKind(c, id, session, echo, at, denied, o);
      PrepareInherited(b, id, identity, at, o);
    }
  }

  lemma LeaseRecordQuiet(b: Broker, id: int, owner: string, principal: int, lease: string, renew: bool, at: Time, denied: set<string>, o: int)
    requires id in b.nodes && o in b.nodes
    ensures var c := LeaseRecord(b, id, owner, principal, lease, renew, at, denied).0;
      c.nodes.Keys == b.nodes.Keys && Quiet(b.nodes[o], c.nodes[o]) && b.next <= c.next
  {
    hide GrantViewer, OverLimits;
    if lease in b.nodes[id].viewers {
      GrantQuiet(b, id, lease, b.nodes[id].viewers[lease].(until := at + VIEWER_TTL), at, denied, o);
    } else {
      GrantQuiet(b.(next := b.next + 1), id, lease, Viewer(owner, principal, at + VIEWER_TTL, b.next), at, denied, o);
    }
  }

  lemma GrantQuiet(b: Broker, id: int, lease: string, v: Viewer, at: Time, denied: set<string>, o: int)
    requires id in b.nodes && o in b.nodes
    ensures var c := GrantViewer(b, id, lease, v, at, denied); Quiet(b.nodes[o], c.nodes[o]) && b.next <= c.next
  {
    hide Refresh;
    var n := b.nodes[id];
    RefreshQuiet(b.(nodes := b.nodes[id := n.(viewers := n.viewers[lease := v])]), id, at, denied, o);
  }

  lemma LeaseInherited(b: Broker, id: int, identity: string, owner: string, principal: int, lease: string, renew: bool, at: Time, denied: set<string>, o: int)
    requires RecordsOk(b)
    requires o in Lease(b, id, identity, owner, principal, lease, renew, at, denied).0.nodes
    ensures var c := Lease(b, id, identity, owner, principal, lease, renew, at, denied).0;
      b.next <= c.next && Inherited(b, o, c.nodes[o])
  {
    hide Prune, Ensure, LeaseRecord, RecordsOk, WellFormedId;
    if !WellFormedId(lease) {
      PruneNext(b, at);
      PruneQuiet(b, at, o);
    } else {
      var c := Ensure(Prune(b, at), id, identity, at);
      PrepareInherited(b, id, identity, at, o);
      if id in c.nodes {
        LeaseRecordQuiet(c, id, owner, principal, lease, renew, at, denied, o);
      }
    }
  }

  lemma ReleaseInherited(b: Broker, node: int, identity: string, owner: string, lease: string, at: Time, id: int)
    requires id in Release(b, node, identity, owner, lease, at).0.nodes
    ensures var c := Release(b, node, identity, owner, lease, at).0; b.next <= c.next && Inherited(b, id, c.nodes[id])
  {
    hide Prune, DropViewer, WellFormedId;
    PruneNext(b, at);
    var p := Prune(b, at);
    var q := p.(tombstones := p.tombstones[LeaseKey(node, owner, lease) := at + TOMBSTONE_TTL]);
    if Owned(p, node, identity, owner, lease) && id in p.nodes {
      DropViewerQuiet(q, node, lease, at, id);
    }
    PruneQuiet(b, at, id);
  }

  lemma RefreshInherited(b: Broker, node: int, at: Time, denied: set<string>, id: int)
    requires node in Prune(b, at).nodes && id in Refresh(Prune(b, at), node, at, denied).nodes
    ensures var c := Refresh(Prune(b, at), node, at, denied); b.next <= c.next && Inherited(b, id, c.nodes[id])
  {
    hide Prune, Refresh;
    PruneNext(b, at);
    PruneQuiet(b, at, id);
    RefreshQuiet(Prune(b, at), node, at, denied, id);
  }

  lemma PruneInherited(b: Broker, at: Time, id: int)
    requires id in Prune(b, at).nodes
    ensures b.next <= Prune(b, at).next && Inherited(b, id, Prune(b, at).nodes[id])
  {
    hide Prune;
    PruneNext(b, at);
    PruneQuiet(b, at, id);
  }

  lemma SnapshotInherited(b: Broker, node: int, identity: string, owner: string, lease: string, after: nat, at: Time, denied: set<string>, id: int)
    requires id in Snapshot(b, node, identity, owner, lease, after, at, denied).0.nodes
    ensures var c := Snapshot(b, node, identity, owner, lease, after, at, denied).0; b.next <= c.next && Inherited(b, id, c.nodes[id])
  {
    hide Prune, Refresh, ViewOf, Inherited;
    if node in Prune(b, at).nodes && Prune(b, at).nodes[node].identity == identity {
      RefreshInherited(b, node, at, denied, id);
    } else {
      PruneInherited(b, at, id);
    }
  }

  lemma SampleInherited(b: Broker, node: int, identity: string, s: Sample, at: Time, denied: set<string>, id: int)
    requires id in RecordSample(b, node, identity, s, at, denied).0.nodes
    ensures var c := RecordSample(b, node, identity, s, at, denied).0; b.next <= c.next && Inherited(b, id, c.nodes[id])
  {
    hide Prune, Refresh, ValidSample, LastN;
    if node in Prune(b, at).nodes && Prune(b, at).nodes[node].identity == identity {
      RefreshInherited(b, node, at, denied, id);
    } else {
      PruneInherited(b, at, id);
    }
  }

  lemma TimerInherited(b: Broker, node: int, birth: Token, lease: string, serial: Token, expires: Time, at: Time, id: int)
    requires id in Expire(b, node, birth, lease, serial, expires, at).nodes
    ensures var c := Expire(b, node, birth, lease, serial, expires, at); b.next <= c.next && Inherited(b, id, c.nodes[id])
  {
    hide DropViewer;
    if node in b.nodes && id in b.nodes {
      DropViewerQuiet(b, node, lease, at, id);
    }
  }

  /** Every step treats every record in one of three ways. */
  lemma StepKind(b: Broker, e: Event, id: int)
    requires RecordsOk(b) && id in Step(b, e).nodes
    ensures var c := Step(b, e);
      && b.next <= c.next
      && (Inherited(b, id, c.nodes[id]) || Issue(b, e, id, c.nodes[id]) || Install(b, e, id, c.nodes[id]))
  {
    hide Control, Lease, Release, Snapshot, RecordSample, Expire, RecordsOk, Inherited, Issue, Install;
    match e
    case PollEvent(node, identity, session, echo, at, denied) =>
      PollKind(b, node, identity, session, echo, at, denied, id);
    case LeaseEvent(node, identity, owner, principal, lease, renew, at, denied) =>
      LeaseInherited(b, node, identity, owner, principal, lease, renew, at, denied, id);
    case ReleaseEvent(node, identity, owner, lease, at) => ReleaseInherited(b, node, identity, owner, lease, at, id);
    case SnapshotEvent(node, identity, owner, lease, after, at, denied) =>
      SnapshotInherited(b, node, identity, owner, lease, after, at, denied, id);
    case SampleEvent(node, identity, s, at, denied) => SampleInherited(b, node, identity, s, at, denied, id);
    case TimerEvent(node, birth, lease, serial, expires, at) =>
      TimerInherited(b, node, birth, lease, serial, expires, at, id);
    case ResetEvent =>
  }

  // ----- whole runs --------------------------------------------------------------------

  /** Step `k` answered a poll of `session` with `challenge` while `head` was in force. */
  ghost predicate IssuedAt(run: seq<Event>, k: nat, id: int, identity: string, session: string, challenge: int, birth: Token, head: Token)
    requires k < |run|
  {
    && run[k].PollEvent? && run[k].id == id && run[k].identity == identity && run[k].session == session
    && Offered(At(run, k), run[k]).Some? && Offered(At(run, k), run[k]).value == challenge
    && id in At(run, k + 1).nodes
    && At(run, k + 1).nodes[id].birth == birth && At(run, k + 1).nodes[id].head == head
  }

  /** Every pending candidate was issued by an earlier step of the run. */
  ghost predicate Provenance(run: seq<Event>, i: nat)
    requires i <= |run|
  {
    forall id, s | id in At(run, i).nodes && s in At(run, i).nodes[id].candidates ::
      Origin(run, i, id, s, At(run, i).nodes[id])
  }

  ghost predicate Origin(run: seq<Event>, i: nat, id: int, s: string, n: Record)
    requires i <= |run| && s in n.candidates
  {
    exists k: nat | k < i :: IssuedAt(run, k, id, n.identity, s, n.candidates[s].challenge, n.birth, n.candidates[s].parent)
  }

  lemma OriginLasts(run: seq<Event>, i: nat, id: int, s: string, m: Record, n: Record)
    requires i < |run| && s in m.candidates && Origin(run, i, id, s, m)
    requires s in n.candidates && n.candidates[s] == m.candidates[s] && n.birth == m.birth && n.identity == m.identity
    ensures Origin(run, i + 1, id, s, n)
  {
    hide IssuedAt;
    var k: nat :| k < i && IssuedAt(run, k, id, m.identity, s, m.candidates[s].challenge, m.birth, m.candidates[s].parent);
  }

  lemma StepProvenance(run: seq<Event>, i: nat, id: int, s: string)
    requires i < |run| && Provenance(run, i)
    requires id in At(run, i + 1).nodes && s in At(run, i + 1).nodes[id].candidates
    ensures Origin(run, i + 1, id, s, At(run, i + 1).nodes[id])
  {
    hide Step, RecordsOk, Origin, Offered;
    var b, e, n := At(run, i), run[i], At(run, i + 1).nodes[id];
    RunKeepsRecords(run, i);
    StepKind(b, e, id);
    if Inherited(b, id, n) {
      OriginLasts(run, i, id, s, b.nodes[id], n);
    } else if Issue(b, e, id, n) {
      if s == e.session {
        NewOrigin(run, i, id, n);
      } else {
        assert s in n.(candidates := n.candidates - {e.session}).candidates;
        OriginLasts(run, i, id, s, b.nodes[id], n);
      }
    } else {
      OriginLasts(run, i, id, s, b.nodes[id], n);
    }
  }

  lemma NewOrigin(run: seq<Event>, i: nat, id: int, n: Record)
    requires i < |run| && id in At(run, i + 1).nodes && n == At(run, i + 1).nodes[id]
    requires Issue(At(run, i), run[i], id, n)
    ensures Origin(run, i + 1, id, run[i].session, n)
  {
    hide Step, Offered, Inherited, At;
    assert IssuedAt(run, i, id, n.identity, run[i].session, n.candidates[run[i].session].challenge, n.birth, n.candidates[run[i].session].parent);
  }

  lemma {:induction false} RunProvenance(run: seq<Event>, i: nat)
    requires i <= |run|
    ensures Provenance(run, i)
  {
    hide Step, Origin;
    if i > 0 {
      RunProvenance(run, i - 1);
      forall id, s | id in At(run, i).nodes && s in At(run, i).nodes[id].candidates
        ensures Origin(run, i, id, s, At(run, i).nodes[id])
      {
        StepProvenance(run, i - 1, id, s);
      }
    }
  }

  /** Step `j` makes `session` the current session of node `id`. */
  ghost predicate TakesOver(run: seq<Event>, j: nat, id: int, session: string)
    requires j < |run|
  {
    var b, c := At(run, j), At(run, j + 1);
    && id in c.nodes && c.nodes[id].session == session && session != ""
    && !(id in b.nodes && b.nodes[id].birth == c.nodes[id].birth && b.nodes[id].session == session)
  }

  lemma TakesOverIsInstall(run: seq<Event>, j: nat, id: int, session: string)
    requires j < |run| && TakesOver(run, j, id, session)
    ensures Install(At(run, j), run[j], id, At(run, j + 1).nodes[id]) && run[j].session == session
  {
    hide Step, RecordsOk, Offered;
    RunKeepsRecords(run, j);
    StepKind(At(run, j), run[j], id);
  }

  /** A session becomes current only by echoing a challenge which the broker gave that
      same session, on that node and identity, under the head still in force. */
  lemma TakeoverNeedsEcho(run: seq<Event>, j: nat, id: int, session: string)
    requires j < |run| && TakesOver(run, j, id, session)
    ensures run[j].PollEvent? && run[j].id == id && run[j].session == session
    ensures id in At(run, j).nodes
    ensures exists k: nat | k < j ::
      IssuedAt(run, k, id, run[j].identity, session, run[j].echo, At(run, j).nodes[id].birth, At(run, j).nodes[id].head)
  {
    hide Step, IssuedAt, Offered;
    TakesOverIsInstall(run, j, id, session);
    RunProvenance(run, j);
    var n := At(run, j).nodes[id];
    assert Origin(run, j, id, session, n);
  }

  lemma {:induction false} NextGrows(run: seq<Event>, i: nat, j: nat)
    requires i <= j <= |run|
    ensures At(run, i).next <= At(run, j).next
    decreases j
  {
    hide Step;
    if i < j {
      NextGrows(run, i, j - 1);
      StepNext(At(run, j - 1), run[j - 1]);
    }
  }

  lemma ControlNext(b: Broker, id: int, identity: string, session: string, echo: int, at: Time, denied: set<string>)
    ensures b.next <= Control(b, id, identity, session, echo, at, denied).0.next
  {
    hide Prune, Ensure, ControlRecord;
    PruneNext(b, at);
  }

  lemma LeaseNext(b: Broker, id: int, identity: string, owner: string, principal: int, lease: string, renew: bool, at: Time, denied: set<string>)
    ensures b.next <= Lease(b, id, identity, owner, principal, lease, renew, at, denied).0.next
  {
    hide Prune, Ensure, LeaseRecord, WellFormedId;
    PruneNext(b, at);
  }

  lemma ReleaseNext(b: Broker, id: int, identity: string, owner: string, lease: string, at: Time)
    ensures b.next <= Release(b, id, identity, owner, lease, at).0.next
  {
    hide Prune, DropViewer, WellFormedId;
    PruneNext(b, at);
  }

  lemma SnapshotNext(b: Broker, id: int, identity: string, owner: string, lease: string, after: nat, at: Time, denied: set<string>)
    ensures b.next <= Snapshot(b, id, identity, owner, lease, after, at, denied).0.next
  {
    hide Prune, Refresh, ViewOf;
    PruneNext(b, at);
  }

  lemma SampleNext(b: Broker, id: int, identity: string, s: Sample, at: Time, denied: set<string>)
    ensures b.next <= RecordSample(b, id, identity, s, at, denied).0.next
  {
    hide Prune, Refresh, Append, ValidSample;
    PruneNext(b, at);
  }

  lemma StepNext(b: Broker, e: Event)
    ensures b.next <= Step(b, e).next
  {
    hide Control, Lease, Release, Snapshot, RecordSample, DropViewer;
    match e
    case PollEvent(id, identity, session, echo, at, denied) => ControlNext(b, id, identity, session, echo, at, denied);
    case LeaseEvent(id, identity, owner, principal, lease, renew, at, denied) =>
      LeaseNext(b, id, identity, owner, principal, lease, renew, at, denied);
    case ReleaseEvent(id, identity, owner, lease, at) => ReleaseNext(b, id, identity, owner, lease, at);
    case SnapshotEvent(id, identity, owner, lease, after, at, denied) => SnapshotNext(b, id, identity, owner, lease, after, at, denied);
    case SampleEvent(id, identity, s, at, denied) => SampleNext(b, id, identity, s, at, denied);
    case TimerEvent(id, birth, lease, serial, expires, at) =>
    case ResetEvent =>
  }

  /** A head either still stands or has been replaced by one drawn later. */
  lemma {:induction false} LaterHead(run: seq<Event>, i: nat, j: nat, id: int)
    requires i <= j <= |run| && id in At(run, j).nodes
    ensures At(run, j).nodes[id].head >= At(run, i).next
         || (id in At(run, i).nodes && At(run, j).nodes[id].head == At(run, i).nodes[id].head)
    decreases j
  {
    hide Step, RecordsOk, Offered;
    if i < j {
      RunKeepsRecords(run, j - 1);
      StepKind(At(run, j - 1), run[j - 1], id);
      NextGrows(run, i, j - 1);
      if id in At(run, j - 1).nodes {
        LaterHead(run, i, j - 1, id);
      }
    }
  }

  /** After any takeover no earlier challenge can install anyone: the challenge answered
      by the next takeover was issued strictly between the two. */
  lemma OldChallengesAreDead(run: seq<Event>, i: nat, j: nat, id: int, first: string, second: string)
    requires i < j < |run| && TakesOver(run, i, id, first) && TakesOver(run, j, id, second)
    ensures run[j].PollEvent? && id in At(run, j).nodes
    ensures exists k: nat | i < k < j ::
      IssuedAt(run, k, id, run[j].identity, second, run[j].echo, At(run, j).nodes[id].birth, At(run, j).nodes[id].head)
  {
    hide Step, Offered, TakesOver, IssuedAt;
    TakeoverNeedsEcho(run, j, id, second);
    var k: nat :| k < j && IssuedAt(run, k, id, run[j].identity, second, run[j].echo, At(run, j).nodes[id].birth, At(run, j).nodes[id].head);
    IssuedAfterTakeover(run, i, j, k, id, first, run[j].identity, second, run[j].echo, At(run, j).nodes[id].birth, At(run, j).nodes[id].head);
  }

  lemma IssuedAfterTakeover(run: seq<Event>, i: nat, j: nat, k: nat, id: int, first: string,
                            identity: string, session: string, challenge: int, birth: Token, head: Token)
    requires i < j < |run| && k < j && TakesOver(run, i, id, first)
    requires id in At(run, j).nodes && At(run, j).nodes[id].head == head
    requires IssuedAt(run, k, id, identity, session, challenge, birth, head)
    ensures i < k
  {
    hide Step, Offered, TakesOver, Quiet;
    TakesOverIsInstall(run, i, id, first);
    if k < i {
      LaterHead(run, i + 1, j, id);
      NextGrows(run, i, i + 1);
      HeadDrawn(run, k + 1, id);
      NextGrows(run, k + 1, i);
    }
  }

  lemma HeadDrawn(run: seq<Event>, i: nat, id: int)
    requires i <= |run| && id in At(run, i).nodes
    ensures At(run, i).nodes[id].head < At(run, i).next
  {
    hide Step, SessionsOk, RingOk;
    RunKeepsRecords(run, i);
  }

  /** The bounds that the accepting branch does not test, and the standing of the current session. */
  lemma SessionBounds(run: seq<Event>, i: nat, id: int)
    requires i <= |run| && id in At(run, i).nodes
    ensures var n := At(run, i).nodes[id];
      && |n.retired| <= 64 && |n.candidates| <= 8
      && n.session !in n.retired && n.session !in n.candidates
      && forall s | s in n.candidates :: s !in n.retired
  {
    hide Step, TokensOk, RingOk;
    RunKeepsRecords(run, i);
  }
}
