/** What every reachable state of the live-diagnostics broker satisfies. */
module DiagnosticsSafety {
  import opened Collections
  import opened DiagnosticsModel

  // ----- the invariant of one record ---------------------------------------------

  function Min(a: int, b: int): int { if a < b then a else b }

  ghost predicate FromEpoch(samples: seq<Sample>, session: string, epoch: int) {
    forall i | 0 <= i < |samples| :: samples[i].session == session && samples[i].epoch == epoch
  }

  ghost predicate Ordered(samples: seq<Sample>) {
    forall i, j | 0 <= i < j < |samples| ::
      samples[i].sequence < samples[j].sequence && samples[i].sampledAt < samples[j].sampledAt
  }

  /** The ring: bounded, of one session and epoch, strictly ordered, alive only while
      running, and fresh for three seconds from the older of sampling and arrival. */
  ghost predicate RingOk(n: Record) {
    && |n.samples| <= 120
    && FromEpoch(n.samples, n.session, n.epoch)
    && Ordered(n.samples)
    && (n.samples != [] ==>
          n.running && n.freshUntil == Min(n.acceptedAt, n.samples[|n.samples| - 1].sampledAt) + 3_000)
    && (n.running ==> n.session != "")
  }

  /** A challenge that can still be answered leaves room to retire the current session. */
  ghost predicate RoomToRetire(n: Record) {
    (exists s | s in n.candidates :: n.candidates[s].parent == n.head) ==> |n.retired| < MAX_RETIRED
  }

  ghost predicate SessionsOk(n: Record) {
    && |n.candidates| <= 8
    && |n.retired| <= 64
    && RoomToRetire(n)
    && n.session !in n.retired
    && n.session !in n.candidates
    && n.retired.Keys !! n.candidates.Keys
  }

  /** Every identifier has been drawn, and a challenge is drawn after the head it is bound to. */
  ghost predicate TokensOk(n: Record, next: Token) {
    && n.birth <= n.head < next
    && n.epoch < next
    && (forall s | s in n.candidates :: n.candidates[s].parent <= n.head && n.candidates[s].parent < n.candidates[s].challenge < next)
    && (forall k | k in n.viewers :: n.viewers[k].serial < next)
  }

  ghost predicate RecordOk(n: Record, next: Token) {
    RingOk(n) && SessionsOk(n) && TokensOk(n, next)
  }

  lemma SubmapSmaller<K, V>(small: map<K, V>, big: map<K, V>)
    requires small.Keys <= big.Keys
    ensures |small| <= |big|
  {
    SubsetSmaller(small.Keys, big.Keys);
  }

  lemma SubsetSmaller<T>(small: set<T>, big: set<T>)
    requires small <= big
    ensures |small| <= |big|
  {
    if small != {} {
      var x :| x in small;
      SubsetSmaller(small - {x}, big - {x});
    }
  }

  /** Forgetting candidates and retired sessions keeps the session invariant. */
  lemma FewerSessions(n: Record, m: Record)
    requires SessionsOk(n) && m.session == n.session && m.head == n.head
    requires m.candidates.Keys <= n.candidates.Keys && m.retired.Keys <= n.retired.Keys
    requires forall s | s in m.candidates :: m.candidates[s] == n.candidates[s]
    ensures SessionsOk(m)
  {
    SubmapSmaller(m.candidates, n.candidates);
    SubmapSmaller(m.retired, n.retired);
  }

  lemma PruneRecordOk(n: Record, at: Time, next: Token)
    requires RecordOk(n, next)
    ensures RecordOk(PruneRecord(n, at), next)
  {
    hide FromEpoch, Ordered;
    var m := PruneRecord(n, at);
    assert SessionsOk(m) by {
      hide RingOk, TokensOk;
      FewerSessions(n, m);
    }
    assert TokensOk(m, next) by {
      hide RingOk, SessionsOk;
    }
  }

  lemma UpdateRunningOk(n: Record, at: Time, live: bool, next: Token)
    requires RecordOk(n, next)
    ensures var (m, next') := UpdateRunning(n, at, live, next);
      RecordOk(m, next') && next <= next' && m.running == (live && n.session != "")
  {
  }

  lemma TakeOverOk(n: Record, session: string, echo: int, at: Time, next: Token)
    requires RecordOk(n, next)
    requires session !in n.retired && session != n.session
    requires Accepts(n, session, echo, at)
    ensures var m := TakeOver(n, session, at, next);
      SessionsOk(m) && TokensOk(m, next + 2) && m.samples == []
  {
    hide RingOk;
    var m := TakeOver(n, session, at, next);
    assert TokensOk(m, next + 2) by {
      hide SessionsOk;
    }
    assert SessionsOk(m) by {
      TakeOverSessions(n, session, at, next);
    }
  }

  lemma TakeOverSessions(n: Record, session: string, at: Time, next: Token)
    requires SessionsOk(n) && session !in n.retired && session != n.session
    requires session in n.candidates && n.candidates[session].parent == n.head
    requires forall s | s in n.candidates :: n.candidates[s].parent < next
    ensures SessionsOk(TakeOver(n, session, at, next))
  {
    var m := TakeOver(n, session, at, next);
    assert |m.candidates| <= MAX_CANDIDATES by {
      SubmapSmaller(m.candidates, n.candidates);
    }
    assert |m.retired| <= MAX_RETIRED by {
      assert |n.retired| < MAX_RETIRED;
      SubsetSmaller(m.retired.Keys, n.retired.Keys + {n.session});
    }
  }

  lemma ChallengeOk(n: Record, session: string, at: Time, next: Token)
    requires RecordOk(n, next)
    requires session !in n.retired && session != n.session
    requires |n.candidates| < MAX_CANDIDATES && |n.retired| < MAX_RETIRED
    ensures RecordOk(Challenge(n, session, at, next), next + 2)
  {
    hide RingOk, SessionsOk, TokensOk, Challenge;
    ChallengeRing(n, session, at, next);
    ChallengeSessions(n, session, at, next);
    ChallengeTokens(n, session, at, next);
  }

  lemma ChallengeRing(n: Record, session: string, at: Time, next: Token)
    requires RingOk(n)
    ensures RingOk(Challenge(n, session, at, next))
  {
    hide FromEpoch, Ordered;
  }

  lemma ChallengeSessions(n: Record, session: string, at: Time, next: Token)
    requires SessionsOk(n) && session !in n.retired && session != n.session
    requires |n.candidates| < MAX_CANDIDATES && |n.retired| < MAX_RETIRED
    ensures SessionsOk(Challenge(n, session, at, next))
  {
    var m := Challenge(n, session, at, next);
    assert m.candidates.Keys == n.candidates.Keys + {session};
  }

  lemma ChallengeTokens(n: Record, session: string, at: Time, next: Token)
    requires TokensOk(n, next)
    ensures TokensOk(Challenge(n, session, at, next), next + 2)
  {
  }

  lemma AppendOk(n: Record, s: Sample, at: Time, next: Token)
    requires RecordOk(n, next) && n.running && n.session == s.session && n.epoch == s.epoch
    requires n.samples != [] ==>
      s.sequence > n.samples[|n.samples| - 1].sequence && s.sampledAt > n.samples[|n.samples| - 1].sampledAt
    ensures RecordOk(Append(n, s, at), next)
  {
    assert SessionsOk(Append(n, s, at)) && TokensOk(Append(n, s, at), next) by {
      hide RingOk;
    }
    assert RingOk(Append(n, s, at)) by {
      hide SessionsOk, TokensOk;
      AppendRing(n, s, at);
    }
  }

  lemma AppendRing(n: Record, s: Sample, at: Time)
    requires RingOk(n) && n.running && n.session == s.session && n.epoch == s.epoch
    requires n.samples != [] ==>
      s.sequence > n.samples[|n.samples| - 1].sequence && s.sampledAt > n.samples[|n.samples| - 1].sampledAt
    ensures RingOk(Append(n, s, at))
  {
    hide Ordered, FromEpoch;
    AppendOrdered(n.samples, s);
    AppendFromEpoch(n.samples, s);
  }

  lemma AppendOrdered(samples: seq<Sample>, s: Sample)
    requires Ordered(samples)
    requires samples != [] ==>
      s.sequence > samples[|samples| - 1].sequence && s.sampledAt > samples[|samples| - 1].sampledAt
    ensures var out := LastN(samples + [s], MAX_SAMPLES);
      Ordered(out) && 0 < |out| <= MAX_SAMPLES && out[|out| - 1] == s
  {
    assert Ordered(samples + [s]);
    if |samples + [s]| > MAX_SAMPLES {
      SuffixOrdered(samples + [s], |samples| + 1 - MAX_SAMPLES);
    }
  }

  lemma AppendFromEpoch(samples: seq<Sample>, s: Sample)
    requires FromEpoch(samples, s.session, s.epoch)
    ensures FromEpoch(LastN(samples + [s], MAX_SAMPLES), s.session, s.epoch)
  {
  }

  lemma SuffixOrdered(samples: seq<Sample>, d: nat)
    requires Ordered(samples) && d <= |samples|
    ensures Ordered(samples[d..])
  {
  }

  // ----- the invariant of all records ----------------------------------------------

  ghost predicate RecordsOk(b: Broker) {
    && |b.nodes| <= MAX_RECORDS
    && forall id | id in b.nodes :: RecordOk(b.nodes[id], b.next)
  }

  lemma PruneKeepsRecords(b: Broker, at: Time)
    requires RecordsOk(b)
    ensures RecordsOk(Prune(b, at))
  {
    SubmapSmaller(Prune(b, at).nodes, b.nodes);
    forall id | id in Prune(b, at).nodes
      ensures RecordOk(Prune(b, at).nodes[id], b.next)
    {
      PruneRecordOk(b.nodes[id], at, b.next);
    }
  }

  /** Taking a record out keeps the others good. */
  lemma RemoveKeepsRecords(b: Broker, id: int)
    requires RecordsOk(b)
    ensures RecordsOk(b.(nodes := b.nodes - {id}))
  {
    hide RecordOk;
    SubmapSmaller(b.nodes - {id}, b.nodes);
  }

  /** Putting a good record in a free place keeps all records good. */
  lemma AddKeepsRecords(b: Broker, id: int, m: Record, next: Token)
    requires RecordsOk(b) && id !in b.nodes && |b.nodes| < MAX_RECORDS && b.next <= next
    requires RecordOk(m, next)
    ensures RecordsOk(b.(nodes := b.nodes[id := m], next := next))
  {
    LaterRecordsOk(b, next);
    hide RecordOk;
    assert b.nodes[id := m].Keys == b.nodes.Keys + {id};
  }

  lemma EnsureKeepsRecords(b: Broker, id: int, identity: string, at: Time)
    requires RecordsOk(b)
    ensures var c := Ensure(b, id, identity, at);
      RecordsOk(c) && b.next <= c.next && (id in c.nodes ==> c.nodes[id].identity == identity)
  {
    hide RecordsOk, RecordOk, NewRecord;
    if id in b.nodes && b.nodes[id].identity == identity {
      RecordIsOk(b, id);
      TouchedOk(b.nodes[id], at, b.next);
      UpdateKeepsRecords(b, id, b.nodes[id].(touchedAt := at), b.next);
    } else {
      RemoveKeepsRecords(b, id);
      if |b.nodes - {id}| < MAX_RECORDS {
        NewRecordOk(identity, at, b.next);
        AddKeepsRecords(b.(nodes := b.nodes - {id}), id, NewRecord(identity, at, b.next), b.next + 2);
      }
    }
  }

  lemma RecordIsOk(b: Broker, id: int)
    requires RecordsOk(b) && id in b.nodes
    ensures RecordOk(b.nodes[id], b.next)
  {
    hide RecordOk;
  }

  lemma TouchedOk(n: Record, at: Time, next: Token)
    requires RecordOk(n, next)
    ensures RecordOk(n.(touchedAt := at), next)
  {
  }

  lemma NewRecordOk(identity: string, at: Time, next: Token)
    ensures RecordOk(NewRecord(identity, at, next), next + 2) && NewRecord(identity, at, next).identity == identity
  {
  }

  lemma LaterRecordsOk(b: Broker, next: Token)
    requires RecordsOk(b) && b.next <= next
    ensures RecordsOk(b.(next := next))
  {
  }

  /** Replacing one record by a good one keeps all records good. */
  lemma UpdateKeepsRecords(b: Broker, id: int, m: Record, next: Token)
    requires RecordsOk(b) && id in b.nodes && b.next <= next
    requires RecordOk(m, next)
    ensures RecordsOk(b.(nodes := b.nodes[id := m], next := next))
  {
    assert b.nodes[id := m].Keys == b.nodes.Keys;
  }

  lemma RefreshKeepsRecords(b: Broker, id: int, at: Time, denied: set<string>)
    requires RecordsOk(b) && id in b.nodes
    ensures RecordsOk(Refresh(b, id, at, denied))
  {
    var n := ValidViewers(b.nodes[id], at, denied);
    FewerSessions(b.nodes[id], n);
    UpdateRunningOk(n, at, n.viewers != map[], b.next);
    var (m, next) := UpdateRunning(n, at, n.viewers != map[], b.next);
    UpdateKeepsRecords(b, id, m, next);
  }

  lemma DropViewerKeepsRecords(b: Broker, id: int, lease: string, at: Time)
    requires RecordsOk(b) && id in b.nodes
    ensures RecordsOk(DropViewer(b, id, lease, at))
  {
    var n := b.nodes[id].(viewers := b.nodes[id].viewers - {lease});
    FewerSessions(b.nodes[id], n);
    UpdateRunningOk(n, at, false, b.next);
    var (m, next) := if n.viewers == map[] then UpdateRunning(n, at, false, b.next) else (n, b.next);
    UpdateKeepsRecords(b, id, m, next);
  }

  /** A poll of the current session; the ring may have been emptied just before. */
  lemma ActivateKeepsRecords(b: Broker, id: int, m: Record, next: Token, at: Time, denied: set<string>)
    requires RecordsOk(b) && id in b.nodes && b.next <= next
    requires SessionsOk(m) && TokensOk(m, next)
    requires RingOk(m) || m.samples == []
    ensures RecordsOk(Activate(b.(nodes := b.nodes[id := m], next := next), id, at, denied).0)
  {
    hide RecordsOk, RecordOk, SessionsOk, TokensOk, RingOk, UpdateRunning;
    var c := b.(nodes := b.nodes[id := m], next := next);
    var n := ValidViewers(m.(capabilityAt := at), at, denied);
    ActivatedRecordOk(m, next, at, denied);
    var (r, next') := UpdateRunning(n, at, n.viewers != map[], next);
    UpdateKeepsRecords(b, id, r, next');
    assert Activate(c, id, at, denied).0 == b.(nodes := b.nodes[id := r], next := next');
  }

  lemma ActivatedRecordOk(m: Record, next: Token, at: Time, denied: set<string>)
    requires SessionsOk(m) && TokensOk(m, next)
    requires RingOk(m) || m.samples == []
    ensures var n := ValidViewers(m.(capabilityAt := at), at, denied);
      var (r, next') := UpdateRunning(n, at, n.viewers != map[], next);
      RecordOk(r, next') && next <= next'
  {
    hide SessionsOk, TokensOk, RingOk, UpdateRunning, ValidViewers;
    var n := ValidViewers(m.(capabilityAt := at), at, denied);
    FewerViewersOk(m, next, at, denied);
    UpdatedRingOk(n, at, n.viewers != map[], next);
    UpdatedSessionsOk(n, at, n.viewers != map[], next);
  }

  lemma FewerViewersOk(m: Record, next: Token, at: Time, denied: set<string>)
    requires SessionsOk(m) && TokensOk(m, next)
    requires RingOk(m) || m.samples == []
    ensures var n := ValidViewers(m.(capabilityAt := at), at, denied);
      SessionsOk(n) && TokensOk(n, next) && (RingOk(n) || n.samples == [])
  {
    hide SessionsOk, TokensOk, FromEpoch, Ordered;
    SameSessions(m, ValidViewers(m.(capabilityAt := at), at, denied));
    FewerViewersDrawn(m, next, at, denied);
  }

  lemma SameSessions(m: Record, n: Record)
    requires SessionsOk(m) && n.session == m.session && n.head == m.head && n.candidates == m.candidates && n.retired == m.retired
    ensures SessionsOk(n)
  {
  }

  lemma FewerViewersDrawn(m: Record, next: Token, at: Time, denied: set<string>)
    requires TokensOk(m, next)
    ensures TokensOk(ValidViewers(m.(capabilityAt := at), at, denied), next)
  {
  }

  lemma UpdatedRingOk(n: Record, at: Time, live: bool, next: Token)
    requires RingOk(n) || n.samples == []
    ensures RingOk(UpdateRunning(n, at, live, next).0)
  {
  }

  lemma UpdatedSessionsOk(n: Record, at: Time, live: bool, next: Token)
    requires SessionsOk(n) && TokensOk(n, next)
    ensures var (r, next') := UpdateRunning(n, at, live, next); SessionsOk(r) && TokensOk(r, next') && next <= next'
  {
    hide SessionsOk;
    SameSessions(n, UpdateRunning(n, at, live, next).0);
  }

  lemma ControlKeepsRecords(b: Broker, id: int, identity: string, session: string, echo: int, at: Time, denied: set<string>)
    requires RecordsOk(b)
    ensures RecordsOk(Control(b, id, identity, session, echo, at, denied).0)
  {
    hide Prune, Ensure, Activate, TakeOver, Challenge, SessionsOk, TokensOk, RingOk;
    PruneKeepsRecords(b, at);
    EnsureKeepsRecords(Prune(b, at), id, identity, at);
    var c := Ensure(Prune(b, at), id, identity, at);
    if id in c.nodes {
      var n := c.nodes[id];
      if session in n.retired {
      } else if n.session == session {
        assert c == c.(nodes := c.nodes[id := n], next := c.next);
        ActivateKeepsRecords(c, id, n, c.next, at, denied);
      } else if Accepts(n, session, echo, at) {
        TakeOverOk(n, session, echo, at, c.next);
        ActivateKeepsRecords(c, id, TakeOver(n, session, at, c.next), c.next + 2, at, denied);
      } else if session in n.candidates && n.candidates[session].parent == n.head {
      } else if |n.candidates| < MAX_CANDIDATES && |n.retired| < MAX_RETIRED {
        ChallengeOk(n, session, at, c.next);
        UpdateKeepsRecords(c, id, Challenge(n, session, at, c.next), c.next + 2);
      }
    }
  }

  lemma GrantKeepsRecords(b: Broker, id: int, lease: string, v: Viewer, at: Time, denied: set<string>)
    requires RecordsOk(b) && id in b.nodes && v.serial < b.next
    ensures RecordsOk(GrantViewer(b, id, lease, v, at, denied))
  {
    var n := b.nodes[id].(viewers := b.nodes[id].viewers[lease := v]);
    UpdateKeepsRecords(b, id, n, b.next);
    RefreshKeepsRecords(b.(nodes := b.nodes[id := n]), id, at, denied);
  }

  lemma ViewerDrawn(b: Broker, id: int, lease: string)
    requires RecordsOk(b) && id in b.nodes && lease in b.nodes[id].viewers
    ensures b.nodes[id].viewers[lease].serial < b.next
  {
    hide RingOk, SessionsOk;
    RecordIsOk(b, id);
  }

  lemma LeaseRecordKeepsRecords(b: Broker, id: int, owner: string, principal: int, lease: string, renew: bool, at: Time, denied: set<string>)
    requires RecordsOk(b) && id in b.nodes
    ensures RecordsOk(LeaseRecord(b, id, owner, principal, lease, renew, at, denied).0)
  {
    hide RecordsOk, GrantViewer, OverLimits;
    if lease in b.nodes[id].viewers {
      ViewerDrawn(b, id, lease);
      GrantKeepsRecords(b, id, lease, b.nodes[id].viewers[lease].(until := at + VIEWER_TTL), at, denied);
    } else {
      LaterRecordsOk(b, b.next + 1);
      GrantKeepsRecords(b.(next := b.next + 1), id, lease, Viewer(owner, principal, at + VIEWER_TTL, b.next), at, denied);
    }
  }

  lemma LeaseKeepsRecords(b: Broker, id: int, identity: string, owner: string, principal: int, lease: string, renew: bool, at: Time, denied: set<string>)
    requires RecordsOk(b)
    ensures RecordsOk(Lease(b, id, identity, owner, principal, lease, renew, at, denied).0)
  {
    hide Prune, Ensure, LeaseRecord, RecordsOk, WellFormedId;
    PruneKeepsRecords(b, at);
    EnsureKeepsRecords(Prune(b, at), id, identity, at);
    var c := Ensure(Prune(b, at), id, identity, at);
    if id in c.nodes {
      LeaseRecordKeepsRecords(c, id, owner, principal, lease, renew, at, denied);
    }
  }

  lemma RecordSampleKeepsRecords(b: Broker, id: int, identity: string, s: Sample, at: Time, denied: set<string>)
    requires RecordsOk(b)
    ensures RecordsOk(RecordSample(b, id, identity, s, at, denied).0)
  {
    hide Prune, Refresh, Append, SessionsOk, TokensOk, RingOk;
    PruneKeepsRecords(b, at);
    var p := Prune(b, at);
    if id in p.nodes && p.nodes[id].identity == identity {
      RefreshKeepsRecords(p, id, at, denied);
      var c := Refresh(p, id, at, denied);
      if RecordSample(b, id, identity, s, at, denied).1.None? {
        AppendOk(c.nodes[id], s, at, c.next);
        UpdateKeepsRecords(c, id, Append(c.nodes[id], s, at), c.next);
      }
    }
  }

  lemma StepKeepsRecords(b: Broker, e: Event)
    requires RecordsOk(b)
    ensures RecordsOk(Step(b, e))
  {
    hide Control, Lease, RecordSample, Prune, Refresh, DropViewer, RecordOk;
    match e
    case PollEvent(id, identity, session, echo, at, denied) =>
      ControlKeepsRecords(b, id, identity, session, echo, at, denied);
    case LeaseEvent(id, identity, owner, principal, lease, renew, at, denied) =>
      LeaseKeepsRecords(b, id, identity, owner, principal, lease, renew, at, denied);
    case ReleaseEvent(id, identity, owner, lease, at) =>
      PruneKeepsRecords(b, at);
      var p := Prune(b, at);
      if id in p.nodes {
        DropViewerKeepsRecords(p.(tombstones := p.tombstones[LeaseKey(id, owner, lease) := at + TOMBSTONE_TTL]), id, lease, at);
      }
    case SnapshotEvent(id, identity, owner, lease, after, at, denied) =>
      PruneKeepsRecords(b, at);
      if id in Prune(b, at).nodes {
        RefreshKeepsRecords(Prune(b, at), id, at, denied);
      }
    case SampleEvent(id, identity, s, at, denied) =>
      RecordSampleKeepsRecords(b, id, identity, s, at, denied);
    case TimerEvent(id, birth, lease, serial, expires, at) =>
      if id in b.nodes {
        DropViewerKeepsRecords(b, id, lease, at);
      }
    case ResetEvent =>
  }

  lemma InitialRecords()
    ensures RecordsOk(INITIAL)
  {
  }

  /** Every record of every reachable broker is well formed. */
  lemma {:induction false} RunKeepsRecords(run: seq<Event>, i: nat)
    requires i <= |run|
    ensures RecordsOk(At(run, i))
  {
    hide Step, RecordsOk;
    if i == 0 {
      InitialRecords();
    } else {
      RunKeepsRecords(run, i - 1);
      StepKeepsRecords(At(run, i - 1), run[i - 1]);
    }
  }
}
