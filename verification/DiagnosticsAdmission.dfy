/** Exactly when the broker says yes: to a lease, a release, a snapshot, a sample and a command,
    told by the records as they stand before the call and with the numbers written out. */
module DiagnosticsAdmission {
  import opened Collections
  import opened DiagnosticsModel
  import opened DiagnosticsRing

  // ----- what is alive at a time --------------------------------------------------------------

  function LiveHere(b: Broker, id: int, at: Time): set<string> {
    if id in b.nodes then set k | k in b.nodes[id].viewers && at < b.nodes[id].viewers[k].until else {}
  }

  function LiveAll(b: Broker, at: Time): set<(int, string)> {
    set id, k | id in b.nodes && k in b.nodes[id].viewers && at < b.nodes[id].viewers[k].until :: (id, k)
  }

  function LiveOwn(b: Broker, principal: int, at: Time): set<(int, string)> {
    set id, k | id in b.nodes && k in b.nodes[id].viewers && at < b.nodes[id].viewers[k].until
                && b.nodes[id].viewers[k].principal == principal :: (id, k)
  }

  function LiveWatched(b: Broker, at: Time): set<int> { set id | id in b.nodes && LiveHere(b, id, at) != {} }

  function LiveTombs(b: Broker, at: Time): set<LeaseKey> { set k | k in b.tombstones && at < b.tombstones[k] }

  /** The node has a record of this identity that somebody watches or touched in five minutes. */
  predicate Stands(b: Broker, id: int, identity: string, at: Time) {
    id in b.nodes && b.nodes[id].identity == identity && (LiveHere(b, id, at) != {} || at - b.nodes[id].touchedAt <= 300_000)
  }

  lemma PrunedRecord(b: Broker, id: int, at: Time)
    ensures id in Prune(b, at).nodes <==> id in b.nodes && (LiveHere(b, id, at) != {} || at - b.nodes[id].touchedAt <= 300_000)
    ensures id in Prune(b, at).nodes ==>
      Prune(b, at).nodes[id] == PruneRecord(b.nodes[id], at) && Prune(b, at).nodes[id].viewers.Keys == LiveHere(b, id, at)
  {
    if id in b.nodes {
      var live := PruneRecord(b.nodes[id], at).viewers;
      assert live.Keys == LiveHere(b, id, at);
      assert live == map[] <==> live.Keys == {};
    }
  }

  lemma PrunedViewers(b: Broker, at: Time)
    ensures AllViewers(Prune(b, at).nodes) == LiveAll(b, at)
  {
    forall x
      ensures x in AllViewers(Prune(b, at).nodes) <==> x in LiveAll(b, at)
    {
      assert x == (x.0, x.1);
      InAll(Prune(b, at).nodes, x.0, x.1);
      InLive(b, at, x.0, x.1);
      PrunedRecord(b, x.0, at);
    }
  }

  lemma InAll(nodes: map<int, Record>, id: int, k: string)
    ensures (id, k) in AllViewers(nodes) <==> id in nodes && k in nodes[id].viewers
  {
  }

  lemma InLive(b: Broker, at: Time, id: int, k: string)
    ensures (id, k) in LiveAll(b, at) <==> k in LiveHere(b, id, at)
  {
  }

  lemma PrunedOwn(b: Broker, principal: int, at: Time)
    ensures OwnViewers(Prune(b, at).nodes, principal) == LiveOwn(b, principal, at)
  {
    forall x
      ensures x in OwnViewers(Prune(b, at).nodes, principal) <==> x in LiveOwn(b, principal, at)
    {
      assert x == (x.0, x.1);
      InOwn(Prune(b, at).nodes, principal, x.0, x.1);
      InLiveOwn(b, principal, at, x.0, x.1);
      PrunedRecord(b, x.0, at);
    }
  }

  lemma InOwn(nodes: map<int, Record>, principal: int, id: int, k: string)
    ensures (id, k) in OwnViewers(nodes, principal) <==> id in nodes && k in nodes[id].viewers && nodes[id].viewers[k].principal == principal
  {
  }

  lemma InLiveOwn(b: Broker, principal: int, at: Time, id: int, k: string)
    ensures (id, k) in LiveOwn(b, principal, at) <==> k in LiveHere(b, id, at) && b.nodes[id].viewers[k].principal == principal
  {
  }

  lemma PrunedWatched(b: Broker, at: Time)
    ensures ActiveNodes(Prune(b, at).nodes) == LiveWatched(b, at)
  {
    hide Prune, LiveHere;
    forall id
      ensures id in ActiveNodes(Prune(b, at).nodes) <==> id in LiveWatched(b, at)
    {
      PrunedRecord(b, id, at);
      if id in Prune(b, at).nodes {
        var vs := Prune(b, at).nodes[id].viewers;
        assert vs == map[] <==> vs.Keys == {};
      }
    }
  }

  lemma PrunedTombs(b: Broker, at: Time)
    ensures Prune(b, at).tombstones.Keys == LiveTombs(b, at)
  {
  }

  /** Looking a record up: it is there as pruned and touched, or a new one without a session. */
  lemma Prepared(b: Broker, id: int, identity: string, at: Time)
    ensures var p, c := Prune(b, at), Ensure(Prune(b, at), id, identity, at);
      && c.tombstones == p.tombstones
      && (Stands(b, id, identity, at) ==>
            && c.next == b.next && id in p.nodes && c.nodes == p.nodes[id := p.nodes[id].(touchedAt := at)]
            && p.nodes[id] == PruneRecord(b.nodes[id], at))
      && (!Stands(b, id, identity, at) && id in c.nodes ==> c.nodes[id].session == "" && c.nodes[id].viewers == map[])
  {
    hide LiveHere;
    PrunedRecord(b, id, at);
  }

  /** The records that outlive a pruning. */
  function Lasting(b: Broker, at: Time): set<int> {
    set id | id in b.nodes && (LiveHere(b, id, at) != {} || at - b.nodes[id].touchedAt <= 300_000)
  }

  lemma PrunedKeys(b: Broker, at: Time)
    ensures Prune(b, at).nodes.Keys == Lasting(b, at)
  {
    hide Prune, LiveHere;
    forall o
      ensures o in Prune(b, at).nodes <==> o in Lasting(b, at)
    {
      PrunedRecord(b, o, at);
    }
  }

  lemma LastingStands(b: Broker, id: int, identity: string, at: Time)
    ensures Stands(b, id, identity, at) <==> id in Lasting(b, at) && b.nodes[id].identity == identity
    ensures id in Prune(b, at).nodes ==> id in b.nodes && Prune(b, at).nodes[id].identity == b.nodes[id].identity
  {
    hide Prune, LiveHere;
    PrunedRecord(b, id, at);
  }

  /** A node without a standing record gets a new one exactly while fewer than 1024 others last. */
  lemma NewRecordExactly(b: Broker, id: int, identity: string, at: Time)
    requires !Stands(b, id, identity, at)
    ensures var c := Ensure(Prune(b, at), id, identity, at);
      && (id in c.nodes <==> |Lasting(b, at) - {id}| < 1024)
      && (id in c.nodes ==>
            && c.nodes[id].identity == identity && c.nodes[id].session == "" && c.nodes[id].viewers == map[]
            && c.nodes[id].samples == [] && c.nodes[id].candidates == map[] && c.nodes[id].birth >= b.next)
      && (forall o | o != id :: o in c.nodes <==> o in Lasting(b, at))
  {
    hide Prune, LiveHere, Lasting;
    PrunedNext(b, at);
    PrunedKeys(b, at);
    LastingStands(b, id, identity, at);
    var p := Prune(b, at);
    assert (p.nodes - {id}).Keys == Lasting(b, at) - {id};
    assert |p.nodes - {id}| == |(p.nodes - {id}).Keys|;
  }

  /** Touching a record changes no viewer. */
  lemma TouchedViewers(nodes: map<int, Record>, id: int, at: Time, principal: int)
    requires id in nodes
    ensures var touched := nodes[id := nodes[id].(touchedAt := at)];
      && AllViewers(touched) == AllViewers(nodes) && OwnViewers(touched, principal) == OwnViewers(nodes, principal)
      && ActiveNodes(touched) == ActiveNodes(nodes)
  {
    var touched := nodes[id := nodes[id].(touchedAt := at)];
    forall x
      ensures x in AllViewers(touched) <==> x in AllViewers(nodes)
      ensures x in OwnViewers(touched, principal) <==> x in OwnViewers(nodes, principal)
    {
      assert x == (x.0, x.1);
      InAll(touched, x.0, x.1);
      InAll(nodes, x.0, x.1);
      InOwn(touched, principal, x.0, x.1);
      InOwn(nodes, principal, x.0, x.1);
    }
  }

  // ----- leases -----------------------------------------------------------------------------------

  /** There is room in every budget for one more viewer. */
  predicate RoomForOneMore(b: Broker, id: int, principal: int, at: Time) {
    && |LiveTombs(b, at)| < 480
    && |LiveHere(b, id, at)| < 8
    && |LiveAll(b, at)| < 32
    && |LiveOwn(b, principal, at)| < 4
    && (LiveHere(b, id, at) == {} ==> |LiveWatched(b, at)| < 8)
  }

  /** What a request for a lease must meet. */
  predicate MayWatch(b: Broker, id: int, identity: string, owner: string, principal: int, lease: string, renew: bool, at: Time) {
    && WellFormedId(lease) && Stands(b, id, identity, at)
    && b.nodes[id].session != "" && at - b.nodes[id].capabilityAt <= 70_000
    && LeaseKey(id, owner, lease) !in LiveTombs(b, at)
    && if lease in LiveHere(b, id, at) then b.nodes[id].viewers[lease].owner == owner
       else !renew && RoomForOneMore(b, id, principal, at)
  }

  lemma RoomExactly(b: Broker, id: int, identity: string, principal: int, at: Time)
    requires Stands(b, id, identity, at)
    ensures var c := Ensure(Prune(b, at), id, identity, at);
      id in c.nodes && (RoomForOneMore(b, id, principal, at) <==> |c.tombstones| < OPEN_TOMBSTONES && !OverLimits(c, id, principal))
  {
    hide Prune, Ensure, AllViewers, OwnViewers, ActiveNodes, LiveHere, LiveAll, LiveOwn, LiveWatched, LiveTombs, PruneRecord;
    var p := Prune(b, at);
    Prepared(b, id, identity, at);
    PrunedRecord(b, id, at);
    PrunedViewers(b, at);
    PrunedOwn(b, principal, at);
    PrunedWatched(b, at);
    PrunedTombs(b, at);
    TouchedViewers(p.nodes, id, at, principal);
    var vs := p.nodes[id].viewers;
    assert |vs| == |vs.Keys| && (vs == map[] <==> vs.Keys == {});
    assert |p.tombstones| == |p.tombstones.Keys|;
  }

  /** A lease is granted exactly when the request meets all conditions. */
  lemma LeaseGrantedExactly(b: Broker, id: int, identity: string, owner: string, principal: int, lease: string, renew: bool, at: Time, denied: set<string>)
    ensures Lease(b, id, identity, owner, principal, lease, renew, at, denied).1.Granted? <==>
      MayWatch(b, id, identity, owner, principal, lease, renew, at)
  {
    hide Prune, Ensure, GrantViewer, OverLimits, WellFormedId, LiveHere, LiveTombs, RoomForOneMore;
    var c := Ensure(Prune(b, at), id, identity, at);
    Prepared(b, id, identity, at);
    if Stands(b, id, identity, at) {
      PrunedRecord(b, id, at);
      PrunedTombs(b, at);
      RoomExactly(b, id, identity, principal, at);
      SameFields(b.nodes[id], at);
      LiveViewer(b, id, lease, at);
    }
  }

  lemma SameFields(n: Record, at: Time)
    ensures var m := PruneRecord(n, at);
      && m.session == n.session && m.capabilityAt == n.capabilityAt && m.identity == n.identity
      && (forall k | k in m.viewers :: k in n.viewers && m.viewers[k] == n.viewers[k])
  {
  }

  lemma LiveViewer(b: Broker, id: int, k: string, at: Time)
    requires id in b.nodes
    ensures k in LiveHere(b, id, at) <==> k in b.nodes[id].viewers && at < b.nodes[id].viewers[k].until
  {
  }

  /** The grant was made less than five seconds ago and is simply repeated. */
  predicate JustGranted(b: Broker, id: int, lease: string, at: Time) {
    lease in LiveHere(b, id, at) && id in b.nodes && lease in b.nodes[id].viewers && b.nodes[id].viewers[lease].until - at > 25_000
  }

  /** What a granted lease gives: thirty seconds from now, to the viewer that has it or to a new one
      of this owner and principal, unless the viewer's authorization is denied at once. */
  lemma LeaseGives(b: Broker, id: int, identity: string, owner: string, principal: int, lease: string, renew: bool, at: Time, denied: set<string>)
    requires Lease(b, id, identity, owner, principal, lease, renew, at, denied).1.Granted?
    ensures var (c, reply) := Lease(b, id, identity, owner, principal, lease, renew, at, denied);
      && id in b.nodes && id in c.nodes
      && var n, known := c.nodes[id], lease in LiveHere(b, id, at);
      if JustGranted(b, id, lease, at) then
        lease in b.nodes[id].viewers && reply.ttl == b.nodes[id].viewers[lease].until - at
        && lease in n.viewers && n.viewers[lease] == b.nodes[id].viewers[lease]
      else
        && reply.ttl == 30_000
        && (lease in n.viewers <==> lease !in denied)
        && (lease in n.viewers ==> n.viewers[lease].until == at + 30_000 && n.viewers[lease].owner == owner)
        && (lease in n.viewers ==> if known then lease in b.nodes[id].viewers && n.viewers[lease].serial == b.nodes[id].viewers[lease].serial
                                                 && n.viewers[lease].principal == b.nodes[id].viewers[lease].principal
                                   else n.viewers[lease].principal == principal)
  {
    hide Prune, Ensure, GrantViewer, OverLimits, WellFormedId, LiveHere;
    var c := Ensure(Prune(b, at), id, identity, at);
    Prepared(b, id, identity, at);
    PrunedRecord(b, id, at);
    if Stands(b, id, identity, at) {
      SameFields(b.nodes[id], at);
      LiveViewer(b, id, lease, at);
      if lease in c.nodes[id].viewers {
        GrantedViewer(c, id, lease, c.nodes[id].viewers[lease].(until := at + VIEWER_TTL), at, denied);
      } else {
        GrantedViewer(c.(next := c.next + 1), id, lease, Viewer(owner, principal, at + VIEWER_TTL, c.next), at, denied);
      }
    }
  }

  lemma GrantedViewer(b: Broker, id: int, lease: string, v: Viewer, at: Time, denied: set<string>)
    requires id in b.nodes && at < v.until
    ensures var c := GrantViewer(b, id, lease, v, at, denied);
      && id in c.nodes && (lease in c.nodes[id].viewers <==> lease !in denied)
      && (lease in c.nodes[id].viewers ==> c.nodes[id].viewers[lease] == v)
  {
  }

  /** The lease is held by this owner. */
  predicate Held(b: Broker, id: int, identity: string, owner: string, lease: string, at: Time) {
    Stands(b, id, identity, at) && lease in LiveHere(b, id, at) && lease in b.nodes[id].viewers && b.nodes[id].viewers[lease].owner == owner
  }

  /** A release is accepted exactly when it is the holder's own, a repetition, or among fewer than
      480 others; and the lease is then gone and barred for five minutes. */
  lemma ReleaseAcceptedExactly(b: Broker, id: int, identity: string, owner: string, lease: string, at: Time)
    ensures var (c, failure) := Release(b, id, identity, owner, lease, at);
      var key := LeaseKey(id, owner, lease);
      && (failure == None <==> WellFormedId(lease) && (Held(b, id, identity, owner, lease, at) || key in LiveTombs(b, at) || |LiveTombs(b, at)| < 480))
      && (failure == None ==> key in c.tombstones && c.tombstones[key] == at + 300_000)
      && (failure == None && Held(b, id, identity, owner, lease, at) ==> id in c.nodes && lease !in c.nodes[id].viewers)
  {
    hide Prune, WellFormedId, LiveHere, LiveTombs;
    var p := Prune(b, at);
    PrunedRecord(b, id, at);
    PrunedTombs(b, at);
    assert |p.tombstones| == |p.tombstones.Keys|;
    if id in b.nodes {
      SameFields(b.nodes[id], at);
      LiveViewer(b, id, lease, at);
    }
  }

  // ----- reading and writing samples --------------------------------------------------------------------

  /** Viewers whose lease runs and whose authorization is not denied. */
  function Watching(b: Broker, id: int, at: Time, denied: set<string>): set<string> { LiveHere(b, id, at) - denied }

  /** The ring and epoch in force once sampling is in line with the viewers. */
  function RingNow(n: Record, live: bool): seq<Sample> { if n.running == (live && n.session != "") then n.samples else [] }

  function EpochNow(n: Record, live: bool, next: Token): Token { if n.running == (live && n.session != "") then n.epoch else next }

  lemma Refreshed(b: Broker, id: int, at: Time, denied: set<string>)
    requires id in Prune(b, at).nodes
    ensures var m, live := Refresh(Prune(b, at), id, at, denied).nodes[id], Watching(b, id, at, denied) != {};
      && id in b.nodes && var n := b.nodes[id];
      && m.viewers.Keys == Watching(b, id, at, denied) && (forall k | k in m.viewers :: k in n.viewers && m.viewers[k] == n.viewers[k])
      && m.identity == n.identity && m.session == n.session && m.capabilityAt == n.capabilityAt
      && m.running == (live && n.session != "")
      && m.samples == RingNow(n, live) && m.epoch == EpochNow(n, live, b.next)
      && (RingNow(n, live) != [] ==> m.acceptedAt == n.acceptedAt && m.freshUntil == n.freshUntil)
      && m.generation == n.generation + (if m.running != n.running || (m.running && at - n.commandAt >= 5_000) then 1 else 0)
      && m.commandAt == (if m.generation != n.generation then at else n.commandAt)
  {
    hide Prune, LiveHere;
    PrunedRecord(b, id, at);
    SameRing(b.nodes[id], at);
    var p := Prune(b, at);
    var n := ValidViewers(p.nodes[id], at, denied);
    StillLive(b, id, at);
    assert n.viewers.Keys == Watching(b, id, at, denied);
    assert n.viewers == map[] <==> n.viewers.Keys == {};
    assert p.next == b.next by { PrunedNext(b, at); }
  }

  lemma PrunedNext(b: Broker, at: Time)
    ensures Prune(b, at).next == b.next
  {
  }

  lemma StillLive(b: Broker, id: int, at: Time)
    requires id in b.nodes
    ensures forall k | k in LiveHere(b, id, at) :: at < b.nodes[id].viewers[k].until
  {
  }

  lemma SameRing(n: Record, at: Time)
    ensures var m := PruneRecord(n, at);
      && m == n.(viewers := m.viewers, candidates := m.candidates, retired := m.retired)
      && (forall k | k in m.viewers :: k in n.viewers && m.viewers[k] == n.viewers[k])
  {
  }

  /** A snapshot is refused exactly to somebody else, blank exactly without a running lease, and
      shown exactly to the holder. */
  lemma SnapshotAnswersExactly(b: Broker, id: int, identity: string, owner: string, lease: string, after: nat, at: Time, denied: set<string>)
    ensures var (c, view) := Snapshot(b, id, identity, owner, lease, after, at, denied);
      var running := Stands(b, id, identity, at) && lease in Watching(b, id, at, denied) && lease in b.nodes[id].viewers;
      && (view == None <==> running && b.nodes[id].viewers[lease].owner != owner)
      && (view.Some? && view.value.status == Expired <==> !running)
      && (running && b.nodes[id].viewers[lease].owner == owner ==> id in c.nodes && view == Some(ViewOf(c.nodes[id], after, at)))
  {
    hide Prune, Refresh, LiveHere, NewerThan;
    PrunedRecord(b, id, at);
    if id in b.nodes {
      SameFields(b.nodes[id], at);
    }
    if id in Prune(b, at).nodes {
      Refreshed(b, id, at, denied);
    }
  }

  /** The sample is one the broker can take, by itself. */
  predicate Plausible(s: Sample, at: Time) {
    && 0 < s.sequence <= 9007199254740991 && 0 <= s.elapsed <= 9007199254740991
    && at - 10_000 <= s.sampledAt <= at + 3_000 && s.readingsValid
  }

  /** It is newer than the last one, and that came in at least half a second ago. */
  predicate Newer(n: Record, ring: seq<Sample>, s: Sample, at: Time) {
    ring != [] ==>
      && ring[|ring| - 1].sequence < s.sequence && ring[|ring| - 1].sampledAt < s.sampledAt
      && at - n.acceptedAt >= 500
  }

  /** The last 120 of the samples. */
  function Recent(samples: seq<Sample>): seq<Sample> { if |samples| <= 120 then samples else samples[|samples| - 120..] }

  /** A sample is accepted exactly when somebody watches, it is of the current session and epoch,
      plausible and newer; it is then the last of the ring, which keeps the last 120. */
  lemma SampleAcceptedExactly(b: Broker, id: int, identity: string, s: Sample, at: Time, denied: set<string>)
    ensures var (c, failure) := RecordSample(b, id, identity, s, at, denied);
      && (failure == None <==>
            && Stands(b, id, identity, at) && Watching(b, id, at, denied) != {}
            && b.nodes[id].session != "" && s.session == b.nodes[id].session
            && s.epoch == EpochNow(b.nodes[id], true, b.next)
            && Plausible(s, at) && Newer(b.nodes[id], RingNow(b.nodes[id], true), s, at))
      && (failure == None ==> id in c.nodes && c.nodes[id].samples == Recent(RingNow(b.nodes[id], true) + [s]) && c.nodes[id].acceptedAt == at)
  {
    hide Prune, Refresh, LiveHere;
    PrunedRecord(b, id, at);
    if id in b.nodes {
      SameFields(b.nodes[id], at);
    }
    if id in Prune(b, at).nodes {
      Refreshed(b, id, at, denied);
    }
  }

  // ----- commands -----------------------------------------------------------------------------------------

  function AtMost15(left: int): int { if left > 15_000 then 15_000 else left }

  /** What a command that runs may last, by a set of viewers. */
  ghost predicate Lasts(vs: map<string, Viewer>, at: Time, denied: set<string>, remaining: int) {
    && (vs.Keys <= denied ==> remaining == 0)
    && (!(vs.Keys <= denied) ==> exists k | k in vs && k !in denied :: remaining == AtMost15(vs[k].until - at))
    && (forall k | k in vs && k !in denied :: remaining >= AtMost15(vs[k].until - at))
  }

  /** What the current session is told: to stand by without viewers, and else to sample for as long
      as the last of their leases runs, but at most fifteen seconds. */
  lemma CommandLastsExactly(b: Broker, id: int, at: Time, denied: set<string>)
    requires id in b.nodes && b.nodes[id].session != "" && forall k | k in b.nodes[id].viewers :: at < b.nodes[id].viewers[k].until
    ensures var (c, reply) := Activate(b, id, at, denied);
      var vs := b.nodes[id].viewers;
      && reply.Command? && reply.challenge == None && id in c.nodes && reply.epoch == c.nodes[id].epoch && reply.generation == c.nodes[id].generation
      && Lasts(vs, at, denied, reply.remaining)
  {
    hide UpdateRunning;
    var m := b.nodes[id].(capabilityAt := at);
    var n := ValidViewers(m, at, denied);
    UpdatedRecord(n, at, n.viewers != map[], b.next);
    LatestIsMax(n.viewers);
    assert forall k | k in b.nodes[id].viewers && k !in denied :: k in n.viewers && n.viewers[k] == b.nodes[id].viewers[k];
    assert n.viewers == map[] <==> b.nodes[id].viewers.Keys <= denied by {
      if n.viewers == map[] {
        forall k | k in b.nodes[id].viewers
          ensures k in denied
        {
          assert k !in n.viewers;
        }
      }
    }
  }

  lemma UpdatedRecord(n: Record, at: Time, live: bool, next: Token)
    ensures var m := UpdateRunning(n, at, live, next).0; m.running == (live && n.session != "") && m.viewers == n.viewers
  {
  }

  /** The answer on a record without expired entries, case by case. */
  ghost predicate Answered(n: Record, session: string, echo: int, at: Time, next: Token, live: nat, out: nat, c: Record, reply: ControlReply) {
    var pending := session in n.candidates && n.candidates[session].parent == n.head;
    if session in n.retired then reply == Command(None, n.epoch, n.generation, 0)
    else if session == n.session then Obeys(session, c, reply)
    else if pending && echo == n.candidates[session].challenge then
      Obeys(session, c, reply) && c.head >= next && (n.session != "" ==> n.session in c.retired && c.retired[n.session] == at + 600_000)
    else if pending then reply.Command? && reply.challenge == Some(n.candidates[session].challenge)
    else if live < 8 && out < 64 then
      && reply.Command? && reply.challenge == Some(next) && session in c.candidates
      && c.candidates[session].challenge == next && c.candidates[session].parent == n.head && c.candidates[session].until == at + 60_000
    else reply == Refused
  }

  /** The session is the current one and gets a command. */
  predicate Obeys(session: string, c: Record, reply: ControlReply) { reply.Command? && reply.challenge == None && c.session == session }

  lemma ActiveAnswers(b: Broker, id: int, session: string, echo: int, at: Time, denied: set<string>)
    requires id in b.nodes && session !in b.nodes[id].retired && session == b.nodes[id].session
    ensures var (c, reply) := ControlRecord(b, id, session, echo, at, denied); id in c.nodes && Obeys(session, c.nodes[id], reply)
  {
    hide Activate, TakeOver, Challenge;
    Activated(b, id, at, denied);
  }

  lemma EchoAnswers(b: Broker, id: int, session: string, echo: int, at: Time, denied: set<string>)
    requires id in b.nodes && session !in b.nodes[id].retired && session != b.nodes[id].session && Accepts(b.nodes[id], session, echo, at)
    ensures var (c, reply) := ControlRecord(b, id, session, echo, at, denied);
      var n := b.nodes[id];
      && id in c.nodes && Obeys(session, c.nodes[id], reply) && c.nodes[id].head >= b.next
      && (n.session != "" ==> n.session in c.nodes[id].retired && c.nodes[id].retired[n.session] == at + 600_000)
  {
    hide Activate, Challenge, Accepts;
    Activated(b.(nodes := b.nodes[id := TakeOver(b.nodes[id], session, at, b.next)], next := b.next + 2), id, at, denied);
  }

  lemma OtherAnswers(b: Broker, id: int, session: string, echo: int, at: Time, denied: set<string>)
    requires id in b.nodes && session !in b.nodes[id].retired && session != b.nodes[id].session && !Accepts(b.nodes[id], session, echo, at)
    ensures var (c, reply) := ControlRecord(b, id, session, echo, at, denied);
      var n := b.nodes[id];
      && id in c.nodes
      && if session in n.candidates && n.candidates[session].parent == n.head then
           reply.Command? && reply.challenge == Some(n.candidates[session].challenge)
         else if |n.candidates| < 8 && |n.retired| < 64 then
           && reply.Command? && reply.challenge == Some(b.next) && session in c.nodes[id].candidates
           && c.nodes[id].candidates[session].challenge == b.next && c.nodes[id].candidates[session].parent == n.head
           && c.nodes[id].candidates[session].until == at + 60_000
         else reply == Refused
  {
    hide Activate, TakeOver, Accepts;
  }

  lemma RetiredAnswers(b: Broker, id: int, session: string, echo: int, at: Time, denied: set<string>)
    requires id in b.nodes && session in b.nodes[id].retired
    ensures ControlRecord(b, id, session, echo, at, denied) == (b, Command(None, b.nodes[id].epoch, b.nodes[id].generation, 0))
  {
    hide Activate, TakeOver, Accepts, Challenge;
  }

  lemma RecordAnswers(b: Broker, id: int, session: string, echo: int, at: Time, denied: set<string>)
    requires id in b.nodes && forall s | s in b.nodes[id].candidates :: at < b.nodes[id].candidates[s].until
    ensures var (c, reply) := ControlRecord(b, id, session, echo, at, denied);
      id in c.nodes && Answered(b.nodes[id], session, echo, at, b.next, |b.nodes[id].candidates|, |b.nodes[id].retired|, c.nodes[id], reply)
  {
    hide ControlRecord, Obeys;
    var n := b.nodes[id];
    if session in n.retired {
      RetiredAnswers(b, id, session, echo, at, denied);
    } else if n.session == session {
      ActiveAnswers(b, id, session, echo, at, denied);
    } else if Accepts(n, session, echo, at) {
      EchoAnswers(b, id, session, echo, at, denied);
    } else {
      OtherAnswers(b, id, session, echo, at, denied);
    }
  }

  /** The answer to a poll on a standing record: a retired session stands by, the current one gets
      its command, a right echo takes over and retires the session it displaces for ten minutes, a
      pending session gets its challenge again, and a new one a challenge for a minute, unless eight
      others are pending or sixty-four retired. */
  lemma PollAnswers(b: Broker, id: int, identity: string, session: string, echo: int, at: Time, denied: set<string>)
    requires Stands(b, id, identity, at)
    ensures var (c, reply) := Control(b, id, identity, session, echo, at, denied);
      var n := b.nodes[id];
      && id in c.nodes
      && Answered(Unexpired(n, at), session, echo, at, b.next, |LiveCandidates(n, at)|, |LiveRetired(n, at)|, c.nodes[id], reply)
  {
    hide Prune, Ensure, ControlRecord, LiveHere, Answered;
    var c := Ensure(Prune(b, at), id, identity, at);
    Prepared(b, id, identity, at);
    var n := b.nodes[id];
    PrunedFields(n, at);
    var m := c.nodes[id];
    assert |m.candidates| == |m.candidates.Keys| && |m.retired| == |m.retired.Keys|;
    RecordAnswers(c, id, session, echo, at, denied);
    TouchedAnswers(Unexpired(n, at), m, session, echo, at, b.next, |m.candidates|, |m.retired|,
                   ControlRecord(c, id, session, echo, at, denied).0.nodes[id], ControlRecord(c, id, session, echo, at, denied).1);
  }

  /** The record without its expired candidates and retired sessions. */
  function Unexpired(n: Record, at: Time): Record {
    n.(candidates := map s | s in n.candidates && at < n.candidates[s].until :: n.candidates[s],
       retired := map s | s in n.retired && at < n.retired[s] :: n.retired[s])
  }

  lemma TouchedAnswers(n: Record, m: Record, session: string, echo: int, at: Time, next: Token, live: nat, out: nat, c: Record, reply: ControlReply)
    requires m == n.(touchedAt := m.touchedAt, viewers := m.viewers) && Answered(m, session, echo, at, next, live, out, c, reply)
    ensures Answered(n, session, echo, at, next, live, out, c, reply)
  {
  }

  lemma ActiveLasts(b: Broker, id: int, m: Record, next: Token, at: Time, denied: set<string>)
    requires id in b.nodes && m.session != "" && m.viewers == b.nodes[id].viewers
    requires forall k | k in m.viewers :: at < m.viewers[k].until
    ensures var reply := Activate(b.(nodes := b.nodes[id := m], next := next), id, at, denied).1;
      reply.Command? && Lasts(b.nodes[id].viewers, at, denied, reply.remaining)
  {
    hide Activate;
    CommandLastsExactly(b.(nodes := b.nodes[id := m], next := next), id, at, denied);
  }

  lemma RecordCommandLasts(b: Broker, id: int, session: string, echo: int, at: Time, denied: set<string>)
    requires id in b.nodes && session != "" && session !in b.nodes[id].retired
    requires forall k | k in b.nodes[id].viewers :: at < b.nodes[id].viewers[k].until
    requires ControlRecord(b, id, session, echo, at, denied).0.nodes[id].session == session
    ensures var reply := ControlRecord(b, id, session, echo, at, denied).1;
      reply.Command? && Lasts(b.nodes[id].viewers, at, denied, reply.remaining)
  {
    hide Activate, Lasts, Accepts;
    var n := b.nodes[id];
    if n.session == session {
      assert b == b.(nodes := b.nodes[id := n], next := b.next);
      ActiveLasts(b, id, n, b.next, at, denied);
    } else if Accepts(n, session, echo, at) {
      ActiveLasts(b, id, TakeOver(n, session, at, b.next), b.next + 2, at, denied);
    }
  }

  /** And what the command of the current session says, by the viewers as they stand. */
  lemma PollCommandLasts(b: Broker, id: int, identity: string, session: string, echo: int, at: Time, denied: set<string>)
    requires Stands(b, id, identity, at) && session != "" && session !in LiveRetired(b.nodes[id], at)
    requires var c := Control(b, id, identity, session, echo, at, denied).0; id in c.nodes && c.nodes[id].session == session
    ensures var reply := Control(b, id, identity, session, echo, at, denied).1;
      reply.Command? && Lasts(LiveViewers(b.nodes[id], at), at, denied, reply.remaining)
  {
    hide Prune, Ensure, ControlRecord, LiveHere, LiveRetired, Lasts;
    Prepared(b, id, identity, at);
    PrunedFields(b.nodes[id], at);
    PrunedLive(b.nodes[id], at);
    RecordCommandLasts(Ensure(Prune(b, at), id, identity, at), id, session, echo, at, denied);
  }

  function LiveViewers(n: Record, at: Time): map<string, Viewer> { map k | k in n.viewers && at < n.viewers[k].until :: n.viewers[k] }

  lemma PrunedLive(n: Record, at: Time)
    ensures PruneRecord(n, at).viewers == LiveViewers(n, at)
    ensures forall k | k in LiveViewers(n, at) :: at < LiveViewers(n, at)[k].until
  {
  }

  function LiveCandidates(n: Record, at: Time): set<string> { set s | s in n.candidates && at < n.candidates[s].until }

  function LiveRetired(n: Record, at: Time): set<string> { set s | s in n.retired && at < n.retired[s] }

  lemma PrunedFields(n: Record, at: Time)
    ensures var m := PruneRecord(n, at);
      && m == n.(viewers := m.viewers, candidates := m.candidates, retired := m.retired)
      && m.candidates.Keys == LiveCandidates(n, at) && m.retired.Keys == LiveRetired(n, at)
      && (forall s | s in m.candidates :: m.candidates[s] == n.candidates[s])
  {
  }

  lemma Activated(b: Broker, id: int, at: Time, denied: set<string>)
    requires id in b.nodes
    ensures var (c, reply) := Activate(b, id, at, denied);
      && id in c.nodes && reply.Command? && reply.challenge == None
      && c.nodes[id].session == b.nodes[id].session && c.nodes[id].head == b.nodes[id].head && c.nodes[id].retired == b.nodes[id].retired
  {
  }

  /** A timer ends its viewer, if it is still the same one with the same deadline. */
  lemma TimerEndsExactly(b: Broker, id: int, birth: Token, lease: string, serial: Token, expires: Time, at: Time)
    ensures var c := Expire(b, id, birth, lease, serial, expires, at);
      var due := id in b.nodes && b.nodes[id].birth == birth && lease in b.nodes[id].viewers
                 && b.nodes[id].viewers[lease].serial == serial && b.nodes[id].viewers[lease].until == expires;
      if due then id in c.nodes && c.nodes[id].viewers == b.nodes[id].viewers - {lease} else c == b
  {
  }
}
