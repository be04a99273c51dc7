/** The right echo is accepted: a process that answers its challenge in time takes over. */
module DiagnosticsProgress {
  import opened Collections
  import opened DiagnosticsModel
  import opened DiagnosticsSafety
  import opened DiagnosticsTakeover
  import opened DiagnosticsBarriers
  import opened DiagnosticsAdmission

  // ----- what becomes of a challenge in one step -----------------------------------------------

  /** The same record under the same head, with every candidate that has not expired. */
  ghost predicate KeepsWaiting(m: Record, n: Record, at: Time) {
    && n.birth == m.birth && n.identity == m.identity && n.head == m.head
    && forall s | s in m.candidates && at < m.candidates[s].until :: s in n.candidates && n.candidates[s] == m.candidates[s]
  }

  /** The same record; and if the head still stands, so do the challenges bound to it. */
  ghost predicate StillWaits(m: Record, n: Record, at: Time) {
    && n.birth == m.birth && n.identity == m.identity
    && (n.head == m.head ==> forall s | s in m.candidates && at < m.candidates[s].until && m.candidates[s].parent == m.head ::
          s in n.candidates && n.candidates[s] == m.candidates[s])
  }

  lemma WaitsThrough(m: Record, n: Record, p: Record, at: Time)
    requires KeepsWaiting(m, n, at) && StillWaits(n, p, at)
    ensures StillWaits(m, p, at)
  {
  }

  lemma PruneWaits(b: Broker, at: Time, id: int)
    requires id in Prune(b, at).nodes
    ensures id in b.nodes && KeepsWaiting(b.nodes[id], Prune(b, at).nodes[id], at)
  {
  }

  lemma RefreshWaits(b: Broker, id: int, at: Time, denied: set<string>, o: int)
    requires id in b.nodes && o in b.nodes
    ensures KeepsWaiting(b.nodes[o], Refresh(b, id, at, denied).nodes[o], at)
  {
  }

  lemma DropWaits(b: Broker, id: int, lease: string, at: Time, o: int)
    requires id in b.nodes && o in b.nodes
    ensures KeepsWaiting(b.nodes[o], DropViewer(b, id, lease, at).nodes[o], at)
  {
  }

  lemma ActivateWaits(b: Broker, id: int, at: Time, denied: set<string>, o: int)
    requires id in b.nodes && o in b.nodes
    ensures KeepsWaiting(b.nodes[o], Activate(b, id, at, denied).0.nodes[o], at)
  {
    hide Refresh;
    RefreshWaits(b.(nodes := b.nodes[id := b.nodes[id].(capabilityAt := at)]), id, at, denied, o);
  }

  lemma ControlRecordWaits(b: Broker, id: int, session: string, echo: int, at: Time, denied: set<string>, o: int)
    requires id in b.nodes && o in b.nodes && b.nodes[id].head < b.next
    ensures StillWaits(b.nodes[o], ControlRecord(b, id, session, echo, at, denied).0.nodes[o], at)
  {
    hide Activate;
    var n := b.nodes[id];
    if session in n.retired {
    } else if n.session == session {
      ActivateWaits(b, id, at, denied, o);
    } else if Accepts(n, session, echo, at) {
      ActivateWaits(b.(nodes := b.nodes[id := TakeOver(n, session, at, b.next)], next := b.next + 2), id, at, denied, o);
    }
  }

  lemma GrantWaits(b: Broker, id: int, lease: string, v: Viewer, at: Time, denied: set<string>, o: int)
    requires id in b.nodes && o in b.nodes
    ensures KeepsWaiting(b.nodes[o], GrantViewer(b, id, lease, v, at, denied).nodes[o], at)
  {
    hide Refresh;
    var n := b.nodes[id];
    RefreshWaits(b.(nodes := b.nodes[id := n.(viewers := n.viewers[lease := v])]), id, at, denied, o);
  }

  lemma LeaseRecordWaits(b: Broker, id: int, owner: string, principal: int, lease: string, renew: bool, at: Time, denied: set<string>, o: int)
    requires id in b.nodes && o in b.nodes
    ensures KeepsWaiting(b.nodes[o], LeaseRecord(b, id, owner, principal, lease, renew, at, denied).0.nodes[o], at)
  {
    hide GrantViewer, OverLimits;
    if lease in b.nodes[id].viewers {
      GrantWaits(b, id, lease, b.nodes[id].viewers[lease].(until := at + VIEWER_TTL), at, denied, o);
    } else {
      GrantWaits(b.(next := b.next + 1), id, lease, Viewer(owner, principal, at + VIEWER_TTL, b.next), at, denied, o);
    }
  }

  lemma PrepareWaits(b: Broker, id: int, identity: string, at: Time, o: int)
    requires RecordsOk(b) && o in b.nodes && o in Ensure(Prune(b, at), id, identity, at).nodes
    requires Ensure(Prune(b, at), id, identity, at).nodes[o].birth == b.nodes[o].birth
    ensures KeepsWaiting(b.nodes[o], Ensure(Prune(b, at), id, identity, at).nodes[o], at)
  {
    hide Prune, RingOk, SessionsOk;
    PruneNext(b, at);
    assert b.nodes[o].birth < b.next;
    if o in Prune(b, at).nodes {
      PruneWaits(b, at, o);
    }
  }

  lemma PollWaits(b: Broker, id: int, identity: string, session: string, echo: int, at: Time, denied: set<string>, o: int)
    requires RecordsOk(b) && o in b.nodes
    requires o in Control(b, id, identity, session, echo, at, denied).0.nodes
    requires Control(b, id, identity, session, echo, at, denied).0.nodes[o].birth == b.nodes[o].birth
    ensures StillWaits(b.nodes[o], Control(b, id, identity, session, echo, at, denied).0.nodes[o], at)
  {
    hide Prune, Ensure, ControlRecord, RingOk, SessionsOk, KeepsWaiting;
    var c := Ensure(Prune(b, at), id, identity, at);
    PruneKeepsRecords(b, at);
    EnsureKeepsRecords(Prune(b, at), id, identity, at);
    if id in c.nodes {
      RecordIsOk(c, id);
      ControlRecordWaits(c, id, session, echo, at, denied, o);
      PrepareWaits(b, id, identity, at, o);
      WaitsThrough(b.nodes[o], c.nodes[o], ControlRecord(c, id, session, echo, at, denied).0.nodes[o], at);
    } else {
      PrepareWaits(b, id, identity, at, o);
      KeptWaits(b.nodes[o], c.nodes[o], at);
    }
  }

  lemma KeptWaits(m: Record, n: Record, at: Time)
    requires KeepsWaiting(m, n, at)
    ensures StillWaits(m, n, at)
  {
  }

  lemma KeptThrough(m: Record, n: Record, p: Record, at: Time)
    requires KeepsWaiting(m, n, at) && KeepsWaiting(n, p, at)
    ensures StillWaits(m, p, at)
  {
  }

  lemma LeaseWaits(b: Broker, id: int, identity: string, owner: string, principal: int, lease: string, renew: bool, at: Time, denied: set<string>, o: int)
    requires RecordsOk(b) && o in b.nodes
    requires o in Lease(b, id, identity, owner, principal, lease, renew, at, denied).0.nodes
    requires Lease(b, id, identity, owner, principal, lease, renew, at, denied).0.nodes[o].birth == b.nodes[o].birth
    ensures StillWaits(b.nodes[o], Lease(b, id, identity, owner, principal, lease, renew, at, denied).0.nodes[o], at)
  {
    hide Prune, Ensure, LeaseRecord, RecordsOk, WellFormedId, StillWaits;
    if !WellFormedId(lease) {
      PruneWaits(b, at, o);
      KeptWaits(b.nodes[o], Prune(b, at).nodes[o], at);
    } else {
      var c := Ensure(Prune(b, at), id, identity, at);
      if id in c.nodes {
        LeaseRecordWaits(c, id, owner, principal, lease, renew, at, denied, o);
        PrepareWaits(b, id, identity, at, o);
        KeptThrough(b.nodes[o], c.nodes[o], LeaseRecord(c, id, owner, principal, lease, renew, at, denied).0.nodes[o], at);
      } else {
        PrepareWaits(b, id, identity, at, o);
        KeptWaits(b.nodes[o], c.nodes[o], at);
      }
    }
  }

  lemma RefreshAfterPruneWaits(b: Broker, id: int, at: Time, denied: set<string>, o: int)
    requires id in Prune(b, at).nodes && o in Prune(b, at).nodes
    ensures o in b.nodes && StillWaits(b.nodes[o], Refresh(Prune(b, at), id, at, denied).nodes[o], at)
  {
    hide Prune, Refresh, StillWaits;
    PruneWaits(b, at, o);
    RefreshWaits(Prune(b, at), id, at, denied, o);
    KeptThrough(b.nodes[o], Prune(b, at).nodes[o], Refresh(Prune(b, at), id, at, denied).nodes[o], at);
  }

  lemma JustPruneWaits(b: Broker, at: Time, o: int)
    requires o in Prune(b, at).nodes
    ensures o in b.nodes && StillWaits(b.nodes[o], Prune(b, at).nodes[o], at)
  {
    hide Prune, StillWaits;
    PruneWaits(b, at, o);
    KeptWaits(b.nodes[o], Prune(b, at).nodes[o], at);
  }

  lemma ReleaseWaits(b: Broker, id: int, identity: string, owner: string, lease: string, at: Time, o: int)
    requires o in b.nodes && o in Release(b, id, identity, owner, lease, at).0.nodes
    ensures StillWaits(b.nodes[o], Release(b, id, identity, owner, lease, at).0.nodes[o], at)
  {
    hide Prune, DropViewer, WellFormedId, StillWaits;
    var p := Prune(b, at);
    var q := p.(tombstones := p.tombstones[LeaseKey(id, owner, lease) := at + TOMBSTONE_TTL]);
    JustPruneWaits(b, at, o);
    if Owned(p, id, identity, owner, lease) {
      PruneWaits(b, at, o);
      DropWaits(q, id, lease, at, o);
      KeptThrough(b.nodes[o], p.nodes[o], DropViewer(q, id, lease, at).nodes[o], at);
    }
  }

  lemma SampleWaits(b: Broker, id: int, identity: string, s: Sample, at: Time, denied: set<string>, o: int)
    requires o in b.nodes && o in RecordSample(b, id, identity, s, at, denied).0.nodes
    ensures StillWaits(b.nodes[o], RecordSample(b, id, identity, s, at, denied).0.nodes[o], at)
  {
    hide Prune, Refresh, ValidSample, LastN;
    JustPruneWaits(b, at, o);
    if id in Prune(b, at).nodes {
      RefreshAfterPruneWaits(b, id, at, denied, o);
    }
  }

  lemma StepWaits(b: Broker, e: Event, id: int)
    requires RecordsOk(b) && !e.ResetEvent? && id in b.nodes && id in Step(b, e).nodes
    requires Step(b, e).nodes[id].birth == b.nodes[id].birth
    ensures StillWaits(b.nodes[id], Step(b, e).nodes[id], e.at)
  {
    hide Control, Lease, Release, RecordSample, Prune, Refresh, DropViewer, RecordsOk, StillWaits;
    match e
    case PollEvent(node, identity, session, echo, at, denied) => PollWaits(b, node, identity, session, echo, at, denied, id);
    case LeaseEvent(node, identity, owner, principal, lease, renew, at, denied) =>
      LeaseWaits(b, node, identity, owner, principal, lease, renew, at, denied, id);
    case ReleaseEvent(node, identity, owner, lease, at) => ReleaseWaits(b, node, identity, owner, lease, at, id);
    case SnapshotEvent(node, identity, owner, lease, after, at, denied) =>
      JustPruneWaits(b, at, id);
      if node in Prune(b, at).nodes {
        RefreshAfterPruneWaits(b, node, at, denied, id);
      }
    case SampleEvent(node, identity, s, at, denied) => SampleWaits(b, node, identity, s, at, denied, id);
    case TimerEvent(node, birth, lease, serial, expires, at) =>
      ItselfWaits(b.nodes[id], at);
      if node in b.nodes {
        DropWaits(b, node, lease, at, id);
        KeptWaits(b.nodes[id], DropViewer(b, node, lease, at).nodes[id], at);
      }
  }

  lemma ItselfWaits(m: Record, at: Time)
    ensures StillWaits(m, m, at)
  {
  }

  // ----- the first issue of a challenge ------------------------------------------------------------

  /** Step `k` is the first to answer with this challenge. */
  ghost predicate FirstIssuedAt(run: seq<Event>, k: nat, id: int, identity: string, session: string, challenge: int, birth: Token, head: Token)
    requires k < |run|
  {
    && IssuedAt(run, k, id, identity, session, challenge, birth, head)
    && forall l: nat | l < k :: !IssuedAt(run, l, id, identity, session, challenge, birth, head)
  }

  /** A challenge that was ever issued was issued a first time. */
  lemma {:induction false} IssuedFirst(run: seq<Event>, k: nat, id: int, identity: string, session: string, challenge: int, birth: Token, head: Token) returns (f: nat)
    requires k < |run| && IssuedAt(run, k, id, identity, session, challenge, birth, head)
    ensures f <= k && FirstIssuedAt(run, f, id, identity, session, challenge, birth, head)
  {
    hide IssuedAt;
    if l: nat :| l < k && IssuedAt(run, l, id, identity, session, challenge, birth, head) {
      f := IssuedFirst(run, l, id, identity, session, challenge, birth, head);
    } else {
      f := k;
    }
  }

  /** A poll answered with a challenge leaves that challenge pending: a new one for a minute, or the
      one that was there. */
  lemma OfferKind(b: Broker, id: int, identity: string, session: string, echo: int, at: Time, denied: set<string>)
    requires RecordsOk(b)
    requires var reply := Control(b, id, identity, session, echo, at, denied).1; reply.Command? && reply.challenge.Some?
    ensures var (c, reply) := Control(b, id, identity, session, echo, at, denied);
      && id in c.nodes && c.nodes[id].identity == identity && session in c.nodes[id].candidates
      && var n := c.nodes[id];
      && n.candidates[session].challenge == reply.challenge.value && n.candidates[session].parent == n.head
      && (|| n.candidates[session].until == at + 60_000
          || (id in b.nodes && b.nodes[id].birth == n.birth && b.nodes[id].identity == identity
              && session in b.nodes[id].candidates && b.nodes[id].candidates[session] == n.candidates[session]))
  {
    hide Prune, Ensure, ControlRecord, RecordsOk;
    PruneKeepsRecords(b, at);
    EnsureKeepsRecords(Prune(b, at), id, identity, at);
    var c := Ensure(Prune(b, at), id, identity, at);
    RecordOfferKind(c, id, session, echo, at, denied);
    if session in c.nodes[id].candidates {
      CandidateWasThere(b, id, identity, session, at);
    }
  }

  lemma RecordOfferKind(b: Broker, id: int, session: string, echo: int, at: Time, denied: set<string>)
    requires id in b.nodes
    requires var reply := ControlRecord(b, id, session, echo, at, denied).1; reply.Command? && reply.challenge.Some?
    ensures var (c, reply) := ControlRecord(b, id, session, echo, at, denied);
      && id in c.nodes && session in c.nodes[id].candidates
      && var m, n := b.nodes[id], c.nodes[id];
      && n.identity == m.identity && n.birth == m.birth
      && n.candidates[session].challenge == reply.challenge.value && n.candidates[session].parent == n.head
      && (n.candidates[session].until == at + 60_000 || (session in m.candidates && m.candidates[session] == n.candidates[session]))
  {
    hide Activate, TakeOver, Accepts;
    ActivatedNoChallenge(b, id, session, at, denied);
  }

  lemma ActivatedNoChallenge(c: Broker, id: int, session: string, at: Time, denied: set<string>)
    requires id in c.nodes
    ensures var (d, reply) := Activate(c, id, at, denied); reply.Command? && reply.challenge == None
    ensures var t := c.(nodes := c.nodes[id := TakeOver(c.nodes[id], session, at, c.next)], next := c.next + 2);
      var (d, reply) := Activate(t, id, at, denied); reply.Command? && reply.challenge == None
  {
    hide Refresh, TakeOver;
  }

  lemma CandidateWasThere(b: Broker, id: int, identity: string, session: string, at: Time)
    requires var c := Ensure(Prune(b, at), id, identity, at); id in c.nodes && session in c.nodes[id].candidates
    ensures var c := Ensure(Prune(b, at), id, identity, at);
      && id in b.nodes && b.nodes[id].birth == c.nodes[id].birth && b.nodes[id].identity == identity
      && session in b.nodes[id].candidates && b.nodes[id].candidates[session] == c.nodes[id].candidates[session]
  {
    hide Prune;
    if id in Prune(b, at).nodes {
      PruneQuiet(b, at, id);
    }
  }

  /** What the first issue leaves behind. */
  lemma FirstIssueLeaves(run: seq<Event>, k: nat, id: int, identity: string, session: string, challenge: int, birth: Token, head: Token)
    requires k < |run| && FirstIssuedAt(run, k, id, identity, session, challenge, birth, head)
    ensures id in At(run, k + 1).nodes
    ensures var n := At(run, k + 1).nodes[id];
      && n.identity == identity && n.birth == birth && n.head == head && session in n.candidates
      && n.candidates[session].challenge == challenge && n.candidates[session].parent == head
      && n.candidates[session].until == run[k].at + 60_000
  {
    hide Control, RecordsOk, Origin;
    var e := run[k];
    RunKeepsRecords(run, k);
    assert At(run, k + 1) == Step(At(run, k), e);
    OfferKind(At(run, k), id, identity, session, e.echo, e.at, e.denied);
    if At(run, k + 1).nodes[id].candidates[session].until != e.at + 60_000 {
      RunProvenance(run, k);
      NotTheFirst(run, k, id, session, At(run, k).nodes[id]);
    }
  }

  lemma NotTheFirst(run: seq<Event>, k: nat, id: int, session: string, n: Record)
    requires k < |run| && session in n.candidates && Origin(run, k, id, session, n)
    ensures !FirstIssuedAt(run, k, id, n.identity, session, n.candidates[session].challenge, n.birth, n.candidates[session].parent)
  {
    hide IssuedAt;
  }

  // ----- whole runs -------------------------------------------------------------------------------------

  /** A head that stands at the end stood all the time. */
  lemma HeadStood(run: seq<Event>, i: nat, l: nat, j: nat, id: int)
    requires i <= l <= j <= |run| && id in At(run, i).nodes && id in At(run, l).nodes && id in At(run, j).nodes
    requires At(run, j).nodes[id].head == At(run, i).nodes[id].head
    ensures At(run, l).nodes[id].head == At(run, i).nodes[id].head
  {
    hide Step;
    LaterHead(run, l, j, id);
    HeadDrawn(run, i, id);
    NextGrows(run, i, l);
  }

  /** A challenge stays pending while its record, its head and its minute last. */
  lemma {:induction false} ChallengeLasts(run: seq<Event>, i: nat, j: nat, id: int, s: string)
    requires i <= j <= |run| && Survives(run, i, j, id)
    requires s in At(run, i).nodes[id].candidates && At(run, i).nodes[id].candidates[s].parent == At(run, i).nodes[id].head
    requires forall k | i <= k < j :: run[k].at < At(run, i).nodes[id].candidates[s].until
    requires forall k | i <= k <= j :: At(run, k).nodes[id].head == At(run, i).nodes[id].head
    ensures id in At(run, j).nodes && At(run, j).nodes[id].identity == At(run, i).nodes[id].identity
    ensures s in At(run, j).nodes[id].candidates && At(run, j).nodes[id].candidates[s] == At(run, i).nodes[id].candidates[s]
    decreases j
  {
    hide Step, RecordsOk;
    if i < j {
      SurvivesLess(run, i, j, id);
      ChallengeLasts(run, i, j - 1, id, s);
      RunKeepsRecords(run, j - 1);
      StepWaits(At(run, j - 1), run[j - 1], id);
    }
  }

  /** The converse of the rule that a takeover needs an echo: a session that was issued a challenge,
      and echoes it within a minute of its first issue while the head it is bound to still stands,
      becomes the current session, whichever was current before. */
  lemma EchoTakesOver(run: seq<Event>, k: nat, j: nat, id: int, identity: string, session: string, challenge: int, birth: Token, head: Token)
    requires k < j < |run| && FirstIssuedAt(run, k, id, identity, session, challenge, birth, head)
    requires Survives(run, k + 1, j, id) && At(run, j).nodes[id].head == head
    requires forall l | k < l <= j :: !run[l].ResetEvent? && run[l].at < run[k].at + 60_000
    requires run[j].PollEvent? && run[j].id == id && run[j].identity == identity && run[j].session == session != "" && run[j].echo == challenge
    requires Stands(At(run, j), id, identity, run[j].at)
    ensures TakesOver(run, j, id, session)
    ensures var was := At(run, j).nodes[id].session;
      was != "" ==> was in At(run, j + 1).nodes[id].retired && At(run, j + 1).nodes[id].retired[was] == run[j].at + 600_000
  {
    hide Step, RecordsOk, FirstIssuedAt, Stands, Survives, Answered;
    FirstIssueLeaves(run, k, id, identity, session, challenge, birth, head);
    forall l | k < l <= j
      ensures id in At(run, l).nodes && At(run, l).nodes[id].head == head
    {
      SurvivesAt(run, k + 1, l, j, id);
      HeadStood(run, k + 1, l, j, id);
    }
    ChallengeLasts(run, k + 1, j, id, session);
    SessionBounds(run, j, id);
    var b, e := At(run, j), run[j];
    PollAnswers(b, id, identity, session, challenge, e.at, e.denied);
    EchoIsAnswered(b.nodes[id], session, challenge, e.at, b.next, Control(b, id, identity, session, challenge, e.at, e.denied).0.nodes[id],
                   Control(b, id, identity, session, challenge, e.at, e.denied).1);
    PollStep(run, j);
  }

  lemma SurvivesAt(run: seq<Event>, i: nat, l: nat, j: nat, id: int)
    requires i <= l <= j <= |run| && Survives(run, i, j, id)
    ensures id in At(run, i).nodes && id in At(run, l).nodes && id in At(run, j).nodes
  {
    hide At;
  }

  lemma PollStep(run: seq<Event>, j: nat)
    requires j < |run| && run[j].PollEvent?
    ensures At(run, j + 1) == Control(At(run, j), run[j].id, run[j].identity, run[j].session, run[j].echo, run[j].at, run[j].denied).0
  {
    hide Control, Lease, Release, Snapshot, RecordSample, Expire;
  }

  lemma EchoIsAnswered(n: Record, session: string, challenge: int, at: Time, next: Token, c: Record, reply: ControlReply)
    requires session in n.candidates && at < n.candidates[session].until && n.candidates[session].parent == n.head
    requires n.candidates[session].challenge == challenge && session !in n.retired && session != n.session
    requires Answered(Unexpired(n, at), session, challenge, at, next, |LiveCandidates(n, at)|, |LiveRetired(n, at)|, c, reply)
    ensures c.session == session
    ensures n.session != "" ==> n.session in c.retired && c.retired[n.session] == at + 600_000
  {
  }

  // ----- a run with a displacement --------------------------------------------------------------------

  const HANDOVER := [PollEvent(1, "x", "a", -1, 0, {}), PollEvent(1, "x", "a", 2, 1, {}),
                     PollEvent(1, "x", "b", -1, 2, {}), PollEvent(1, "x", "b", 6, 3, {})]

  const ASKED := Record("x", 0, "", 0, 1, 1, 0, 0, 0, 0, 0, false, map[], map["a" := Candidate(2, 0, 3, 1, 60_000)], map[], [])
  const FIRST := Record("x", 0, "a", 4, 5, 2, 1, 1, 0, 0, 1, false, map[], map[], map[], [])
  const RIVAL := FIRST.(generation := 3, touchedAt := 2, candidates := map["b" := Candidate(6, 4, 7, 3, 60_002)])

  function Only(n: Record, next: Token): Broker { Broker(map[1 := n], map[], next) }

  /** Nothing has expired and the record is not idle. */
  lemma NothingToPrune(n: Record, next: Token, at: Time)
    requires n.viewers == map[] && n.retired == map[] && at - n.touchedAt <= IDLE_RECORD
    requires forall s | s in n.candidates :: at < n.candidates[s].until
    ensures Ensure(Prune(Only(n, next), at), 1, n.identity, at) == Only(n.(touchedAt := at), next)
  {
    NothingExpired(n, at);
    hide PruneRecord;
    assert Prune(Only(n, next), at) == Only(n, next);
  }

  lemma NothingExpired(n: Record, at: Time)
    requires n.viewers == map[] && n.retired == map[] && forall s | s in n.candidates :: at < n.candidates[s].until
    ensures PruneRecord(n, at) == n
  {
  }

  lemma NobodyWatches(n: Record, next: Token, at: Time)
    requires n.viewers == map[] && !n.running
    ensures Activate(Only(n, next), 1, at, {}).0 == Only(n.(capabilityAt := at), next)
  {
    assert ValidViewers(n.(capabilityAt := at), at, {}) == n.(capabilityAt := at);
  }

  lemma Asked()
    ensures At(HANDOVER, 1) == Only(ASKED, 4)
  {
    assert At(HANDOVER, 1) == Step(INITIAL, HANDOVER[0]);
    assert Prune(INITIAL, 0) == INITIAL;
    assert Ensure(INITIAL, 1, "x", 0) == Only(NewRecord("x", 0, 0), 2);
    assert Challenge(NewRecord("x", 0, 0), "a", 0, 2) == ASKED;
  }

  lemma Handed(n: Record, session: string, echo: int, at: Time, next: Token)
    requires n.viewers == map[] && n.retired == map[] && !n.running && at - n.touchedAt <= IDLE_RECORD && session != n.session
    requires (forall s | s in n.candidates :: at < n.candidates[s].until) && Accepts(n, session, echo, at)
    ensures Control(Only(n, next), 1, n.identity, session, echo, at, {}).0 ==
      Only(TakeOver(n.(touchedAt := at), session, at, next).(capabilityAt := at), next + 2)
  {
    hide Prune, Ensure, Activate;
    NothingToPrune(n, next, at);
    var m := n.(touchedAt := at);
    var t := TakeOver(m, session, at, next);
    NobodyWatches(t, next + 2, at);
    assert Accepts(m, session, echo, at);
    assert Only(m, next).(nodes := Only(m, next).nodes[1 := t], next := next + 2) == Only(t, next + 2);
  }

  lemma First()
    ensures At(HANDOVER, 2) == Only(FIRST, 6)
  {
    hide Control;
    Asked();
    PollStep(HANDOVER, 1);
    Handed(ASKED, "a", 2, 1, 4);
    assert TakeOver(ASKED.(touchedAt := 1), "a", 1, 4).(capabilityAt := 1) == FIRST;
  }

  lemma Rival()
    ensures At(HANDOVER, 3) == Only(RIVAL, 8)
  {
    First();
    hide Prune, Ensure, Activate;
    PollStep(HANDOVER, 2);
    NothingToPrune(FIRST, 6, 2);
    assert Challenge(FIRST.(touchedAt := 2), "b", 2, 6) == RIVAL;
  }

  /** A process that runs is displaced by one that answers its challenge. */
  lemma HandoverHappens()
    ensures var before, after := At(HANDOVER, 3), At(HANDOVER, 4);
      && 1 in before.nodes && before.nodes[1].session == "a"
      && 1 in after.nodes && after.nodes[1].session == "b" && after.nodes[1].retired == map["a" := 600_003]
      && TakesOver(HANDOVER, 3, 1, "b")
  {
    hide Control, At;
    Rival();
    PollStep(HANDOVER, 3);
    Handed(RIVAL, "b", 6, 3, 8);
  }
}
