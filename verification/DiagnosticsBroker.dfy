/** The live-diagnostics broker as the object the server keeps: every operation updates the
    tables in place, and is proved equal to the step of the state machine. */
module DiagnosticsBroker {
  import opened Collections
  import opened DiagnosticsModel
  import opened DiagnosticsRing

  /** The pruning loop: delete every entry whose deadline has come. */
  method DropExpired<K(==), V>(m: map<K, V>, deadline: V -> Time, at: Time) returns (r: map<K, V>)
    ensures r == map k | k in m && at < deadline(m[k]) :: m[k]
  {
    r := m;
    var todo := m.Keys;
    while todo != {}
      invariant todo <= m.Keys
      invariant r == map k | k in m && (k in todo || at < deadline(m[k])) :: m[k]
      decreases |todo|
    {
      var k := Pick(todo);
      if at >= deadline(r[k]) {
        r := r - {k};
      }
      todo := todo - {k};
    }
  }

  /** One record's expired viewers, candidates and retired sessions are deleted. */
  method PruneOne(n: Record, at: Time) returns (m: Record)
    ensures m == PruneRecord(n, at)
  {
    var viewers := DropExpired(n.viewers, (v: Viewer) => v.until, at);
    var candidates := DropExpired(n.candidates, (c: Candidate) => c.until, at);
    var retired := DropExpired(n.retired, (t: Time) => t, at);
    m := n.(viewers := viewers, candidates := candidates, retired := retired);
  }

  /** Prune every record, and forget the records nobody watches or polls. */
  method PruneTable(nodes: map<int, Record>, at: Time) returns (r: map<int, Record>)
    ensures r == map id | id in nodes && !Idle(nodes[id], at) :: PruneRecord(nodes[id], at)
  {
    r := nodes;
    var left := nodes.Keys;
    while left != {}
      invariant left <= nodes.Keys
      invariant r == map id | id in nodes && (id in left || !Idle(nodes[id], at)) :: if id in left then nodes[id] else PruneRecord(nodes[id], at)
      decreases |left|
    {
      var id := Pick(left);
      var n := PruneOne(r[id], at);
      IdleAfterPrune(r[id], at);
      if n.viewers == map[] && at - n.touchedAt > IDLE_RECORD {
        r := r - {id};
      } else {
        r := r[id := n];
      }
      left := left - {id};
    }
  }

  /** `latest` is the latest deadline of `vs`, or the zero time. */
  ghost predicate IsLatest(vs: map<string, Viewer>, latest: Time) {
    && (forall k | k in vs :: vs[k].until <= latest)
    && (latest == ZERO_TIME || exists k | k in vs :: vs[k].until == latest)
  }

  lemma LatestWithOneMore(vs: map<string, Viewer>, k: string, v: Viewer, latest: Time)
    requires IsLatest(vs, latest) && k !in vs
    ensures IsLatest(vs[k := v], if v.until > latest then v.until else latest)
  {
    var ws := vs[k := v];
    assert k in ws && ws[k] == v;
    if latest != ZERO_TIME {
      var j :| j in vs && vs[j].until == latest;
      assert ws[j].until == latest;
    }
  }

  /** Keep the viewers that are neither expired nor denied; return their latest deadline. */
  method CheckViewers(vs: map<string, Viewer>, at: Time, denied: set<string>) returns (kept: map<string, Viewer>, latest: Time)
    requires at >= ZERO_TIME
    ensures kept == map k | k in vs && at < vs[k].until && k !in denied :: vs[k]
    ensures latest == Latest(kept)
    ensures latest > at <==> kept != map[]
  {
    latest := ZERO_TIME;
    kept := map[];
    var todo := vs.Keys;
    while todo != {}
      invariant todo <= vs.Keys
      invariant kept == map k | k in vs && k !in todo && at < vs[k].until && k !in denied :: vs[k]
      invariant IsLatest(kept, latest)
      decreases |todo|
    {
      var k := Pick(todo);
      if at < vs[k].until && k !in denied {
        LatestWithOneMore(kept, k, vs[k], latest);
        if vs[k].until > latest {
          latest := vs[k].until;
        }
        kept := kept[k := vs[k]];
      }
      todo := todo - {k};
    }
    LatestIsLatest(kept, at, latest);
  }

  lemma LatestIsLatest(vs: map<string, Viewer>, at: Time, latest: Time)
    requires at >= ZERO_TIME && IsLatest(vs, latest)
    requires forall k | k in vs :: at < vs[k].until
    ensures latest == Latest(vs)
    ensures latest > at <==> vs != map[]
  {
    LatestIsMax(vs);
    if vs != map[] {
      var k :| k in vs && vs[k].until == Latest(vs);
      assert at < vs[k].until <= latest;
    }
  }

  /** Sampling starts or stops with the viewers. */
  method SetRunning(n: Record, at: Time, until: Time, next: Token) returns (m: Record, next': Token)
    ensures (m, next') == UpdateRunning(n, at, until > at, next)
  {
    m, next' := n, next;
    var running := until > at && n.session != "";
    if running != n.running {
      m := m.(running := running, generation := m.generation + 1, commandAt := at);
      m := m.(epoch := next', samples := [], acceptedAt := ZERO_TIME, freshUntil := ZERO_TIME);
      next' := next' + 1;
    } else if running && at - n.commandAt >= REFRESH {
      m := m.(generation := m.generation + 1, commandAt := at);
    }
  }

  class Diagnostics {
    var nodes: map<int, Record>
    var tombstones: map<LeaseKey, Time>
    var next: Token

    ghost function State(): Broker
      reads this
    {
      Broker(nodes, tombstones, next)
    }

    constructor ()
      ensures State() == INITIAL
    {
      nodes, tombstones, next := map[], map[], 0;
    }

    method Reset()
      modifies this
      ensures State() == Step(old(State()), ResetEvent)
    {
      nodes, tombstones := map[], map[];
    }

    method Prune(at: Time)
      modifies this
      ensures State() == DiagnosticsModel.Prune(old(State()), at)
    {
      tombstones := DropExpired(tombstones, (t: Time) => t, at);
      nodes := PruneTable(nodes, at);
    }

    /** Find or create the record of a node; a changed identity discards the old record. */
    method Node(id: int, identity: string, at: Time) returns (found: bool)
      modifies this
      ensures State() == Ensure(old(State()), id, identity, at)
      ensures found <==> id in nodes
    {
      hide NewRecord;
      ghost var b := State();
      if id in nodes && nodes[id].identity != identity {
        nodes := nodes - {id};
      }
      if id !in nodes {
        assert nodes == b.nodes - {id};
        if |nodes| >= MAX_RECORDS {
          return false;
        }
        TouchedAtBirth(nodes, id, identity, at, next);
        nodes := nodes[id := NewRecord(identity, at, next)];
        next := next + 2;
      }
      nodes := nodes[id := nodes[id].(touchedAt := at)];
      found := true;
    }

    /** validViewers followed by updateRunning, on the stored record. */
    method RefreshNode(id: int, at: Time, denied: set<string>) returns (until: Time)
      requires id in nodes && at >= ZERO_TIME
      modifies this
      ensures State() == Refresh(old(State()), id, at, denied)
      ensures until == Latest(nodes[id].viewers)
    {
      var kept, latest := CheckViewers(nodes[id].viewers, at, denied);
      until := latest;
      var m, drawn := SetRunning(nodes[id].(viewers := kept), at, until, next);
      nodes, next := nodes[id := m], drawn;
    }

    method Poll(id: int, identity: string, session: string, echo: int, at: Time, denied: set<string>) returns (reply: ControlReply)
      requires at >= ZERO_TIME
      modifies this
      ensures (State(), reply) == Control(old(State()), id, identity, session, echo, at, denied)
    {
      Prune(at);
      var found := Node(id, identity, at);
      if !found {
        return NoRecord;
      }
      reply := PollOn(id, session, echo, at, denied);
    }

    /** Answer a poll on an existing record. */
    method PollOn(id: int, session: string, echo: int, at: Time, denied: set<string>) returns (reply: ControlReply)
      requires id in nodes && at >= ZERO_TIME
      modifies this
      ensures (State(), reply) == ControlRecord(old(State()), id, session, echo, at, denied)
    {
      hide Activate, TakeOver;
      ghost var b := State();
      var n := nodes[id];
      if session in n.retired {
        return Command(None, n.epoch, n.generation, 0);
      }
      if n.session != session {
        if session in n.candidates && echo == n.candidates[session].challenge && n.candidates[session].parent == n.head
           && at < n.candidates[session].until {
          Replace(id, session, at);
          assert Accepts(b.nodes[id], session, echo, at);
        } else {
          if session !in n.candidates || n.candidates[session].parent != n.head {
            if |n.candidates| >= MAX_CANDIDATES || |n.retired| >= MAX_RETIRED {
              return Refused;
            }
            Offer(id, session, at);
          }
          var c := nodes[id].candidates[session];
          return Command(Some(c.challenge), c.epoch, c.generation, 0);
        }
      }
      reply := Serve(id, at, denied);
    }

    /** Issue a challenge bound to the current head. */
    method Offer(id: int, session: string, at: Time)
      requires id in nodes
      modifies this
      ensures var b := old(State());
        State() == b.(nodes := b.nodes[id := Challenge(b.nodes[id], session, at, b.next)], next := b.next + 2)
    {
      var n := nodes[id];
      n := n.(generation := n.generation + 1);
      n := n.(candidates := n.candidates[session := Candidate(next, n.head, next + 1, n.generation, at + CANDIDATE_TTL)]);
      nodes, next := nodes[id := n], next + 2;
    }

    /** Install the session that answered its challenge. */
    method Replace(id: int, session: string, at: Time)
      requires id in nodes
      modifies this
      ensures var b := old(State());
        State() == b.(nodes := b.nodes[id := TakeOver(b.nodes[id], session, at, b.next)], next := b.next + 2)
    {
      var n := nodes[id];
      if n.session != "" {
        n := n.(retired := n.retired[n.session := at + RETIRED_TTL]);
      }
      n := n.(session := session, head := next, epoch := next + 1, generation := n.generation + 1, commandAt := at);
      n := n.(samples := [], acceptedAt := ZERO_TIME, freshUntil := ZERO_TIME, candidates := n.candidates - {session});
      nodes, next := nodes[id := n], next + 2;
    }

    /** Tell the current session whether, and for how long, to sample. */
    method Serve(id: int, at: Time, denied: set<string>) returns (reply: ControlReply)
      requires id in nodes && at >= ZERO_TIME
      modifies this
      ensures (State(), reply) == Activate(old(State()), id, at, denied)
    {
      hide Refresh;
      nodes := nodes[id := nodes[id].(capabilityAt := at)];
      var until := RefreshNode(id, at, denied);
      var remaining := 0;
      if nodes[id].running {
        remaining := until - at;
        if remaining > CONTROL_TTL {
          remaining := CONTROL_TTL;
        }
      }
      reply := Command(None, nodes[id].epoch, nodes[id].generation, remaining);
    }

    /** Count the viewers of all nodes, those of one principal, and the nodes being watched. */
    method CountViewers(principal: int) returns (total: nat, own: nat, active: nat)
      ensures total == |AllViewers(nodes)|
      ensures own == |OwnViewers(nodes, principal)|
      ensures active == |ActiveNodes(nodes)|
    {
      total, own, active := 0, 0, 0;
      EmptyCounts(principal);
      var todo := nodes.Keys;
      ghost var done: map<int, Record> := map[];
      while todo != {}
        invariant todo <= nodes.Keys
        invariant done == map id | id in nodes && id !in todo :: nodes[id]
        invariant total == |AllViewers(done)|
        invariant own == |OwnViewers(done, principal)|
        invariant active == |ActiveNodes(done)|
        decreases |todo|
      {
        var id := Pick(todo);
        var inside, mine := CountOne(nodes[id].viewers, principal);
        NodeCounts(done, id, nodes[id], principal);
        if nodes[id].viewers != map[] {
          active := active + 1;
        }
        total, own := total + inside, own + mine;
        todo, done := todo - {id}, done[id := nodes[id]];
      }
      assert done == nodes;
    }

    method Grant(id: int, identity: string, owner: string, principal: int, lease: string, renew: bool, at: Time, denied: set<string>) returns (reply: LeaseReply)
      requires at >= ZERO_TIME
      modifies this
      ensures (State(), reply) == Lease(old(State()), id, identity, owner, principal, lease, renew, at, denied)
    {
      Prune(at);
      if !WellFormedId(lease) {
        return LeaseRefused(NoSuchLease);
      }
      var found := Node(id, identity, at);
      if !found {
        return LeaseRefused(Unavailable);
      }
      reply := GrantOn(id, owner, principal, lease, renew, at, denied);
    }

    method GrantOn(id: int, owner: string, principal: int, lease: string, renew: bool, at: Time, denied: set<string>) returns (reply: LeaseReply)
      requires id in nodes && at >= ZERO_TIME
      modifies this
      ensures (State(), reply) == LeaseRecord(old(State()), id, owner, principal, lease, renew, at, denied)
    {
      hide GrantViewer, OverLimits;
      var n := nodes[id];
      if n.session == "" || at - n.capabilityAt > CAPABILITY_FRESH {
        return LeaseRefused(Unavailable);
      }
      if LeaseKey(id, owner, lease) in tombstones {
        return LeaseRefused(NoSuchLease);
      }
      if lease in n.viewers && n.viewers[lease].owner != owner {
        return LeaseRefused(NoSuchLease);
      }
      if renew && lease !in n.viewers {
        return LeaseRefused(NoSuchLease);
      }
      var v;
      if lease !in n.viewers {
        var admitted := Admit(id, principal);
        if !admitted {
          return LeaseRefused(OverBudget);
        }
        v := Viewer(owner, principal, at + VIEWER_TTL, next);
        next := next + 1;
      } else {
        v := n.viewers[lease];
        if v.until - at > VIEWER_TTL - REFRESH {
          return Granted(v.until - at);
        }
        v := v.(until := at + VIEWER_TTL);
      }
      Watch(id, lease, v, at, denied);
      reply := Granted(VIEWER_TTL);
    }

    /** Is there room in every budget for one more viewer? */
    method Admit(id: int, principal: int) returns (ok: bool)
      requires id in nodes
      ensures ok <==> |tombstones| < OPEN_TOMBSTONES && !OverLimits(State(), id, principal)
    {
      hide AllViewers, OwnViewers, ActiveNodes;
      if |tombstones| >= OPEN_TOMBSTONES {
        return false;
      }
      var total, own, active := CountViewers(principal);
      var here := |nodes[id].viewers|;
      ok := !(here >= MAX_NODE_VIEWERS || total >= MAX_VIEWERS || own >= MAX_PRINCIPAL || (here == 0 && active >= MAX_ACTIVE_NODES));
    }

    /** Store a viewer and bring sampling in line. */
    method Watch(id: int, lease: string, v: Viewer, at: Time, denied: set<string>)
      requires id in nodes && at >= ZERO_TIME
      modifies this
      ensures State() == GrantViewer(old(State()), id, lease, v, at, denied)
    {
      hide Refresh;
      nodes := nodes[id := nodes[id].(viewers := nodes[id].viewers[lease := v])];
      var until := RefreshNode(id, at, denied);
    }

    /** Delete one viewer; the last one to leave stops sampling. */
    method Drop(id: int, lease: string, at: Time)
      requires id in nodes && at >= ZERO_TIME
      modifies this
      ensures State() == DropViewer(old(State()), id, lease, at)
    {
      var n := nodes[id].(viewers := nodes[id].viewers - {lease});
      if |n.viewers| == 0 {
        n, next := SetRunning(n, at, ZERO_TIME, next);
      }
      nodes := nodes[id := n];
    }

    method Withdraw(id: int, identity: string, owner: string, lease: string, at: Time) returns (failure: Option<Failure>)
      requires at >= ZERO_TIME
      modifies this
      ensures (State(), failure) == Release(old(State()), id, identity, owner, lease, at)
    {
      Prune(at);
      if !WellFormedId(lease) {
        return Some(NoSuchLease);
      }
      var k := LeaseKey(id, owner, lease);
      var owned := id in nodes && nodes[id].identity == identity && lease in nodes[id].viewers && nodes[id].viewers[lease].owner == owner;
      if k !in tombstones && |tombstones| >= OPEN_TOMBSTONES && !owned {
        return Some(OverBudget);
      }
      tombstones := tombstones[k := at + TOMBSTONE_TTL];
      if owned {
        Drop(id, lease, at);
      }
      failure := None;
    }

    method OnTimer(id: int, birth: Token, lease: string, serial: Token, expires: Time, at: Time)
      requires at >= ZERO_TIME
      modifies this
      ensures State() == Expire(old(State()), id, birth, lease, serial, expires, at)
    {
      if id in nodes && nodes[id].birth == birth && lease in nodes[id].viewers {
        var live := nodes[id].viewers[lease];
        if live.serial == serial && live.until == expires {
          Drop(id, lease, at);
        }
      }
    }

    method Look(id: int, identity: string, owner: string, lease: string, after: nat, at: Time, denied: set<string>) returns (view: Option<View>)
      requires at >= ZERO_TIME
      modifies this
      ensures (State(), view) == Snapshot(old(State()), id, identity, owner, lease, after, at, denied)
    {
      hide DiagnosticsModel.Prune, Refresh;
      Prune(at);
      if id !in nodes || nodes[id].identity != identity {
        return Some(NO_VIEW);
      }
      var until := RefreshNode(id, at, denied);
      var n := nodes[id];
      if lease !in n.viewers {
        return Some(NO_VIEW);
      }
      if n.viewers[lease].owner != owner {
        return None;
      }
      var out := View(if at - n.capabilityAt > CAPABILITY_FRESH then Stale else Waiting, 0, Some(n.epoch), 0, []);
      if |n.samples| > 0 {
        var left := n.freshUntil - at;
        if left > FRESH {
          left := 0;
        }
        out := out.(latest := n.samples[|n.samples| - 1].sequence, status := Stale);
        if left > 0 {
          out := out.(status := Live, freshFor := left);
        }
        var i := |n.samples|;
        while i > 0
          invariant 0 <= i <= |n.samples|
          invariant out.samples == NewerThan(n.samples[i..], after)
          invariant out == ViewOf(n, after, at).(samples := out.samples)
        {
          i := i - 1;
          assert n.samples[i..][1..] == n.samples[i + 1..];
          if n.samples[i].sequence > after {
            out := out.(samples := [n.samples[i]] + out.samples);
          }
        }
        assert n.samples[0..] == n.samples;
      }
      view := Some(out);
    }

    method Accept(id: int, identity: string, s: Sample, at: Time, denied: set<string>) returns (failure: Option<Failure>)
      requires at >= ZERO_TIME
      modifies this
      ensures (State(), failure) == RecordSample(old(State()), id, identity, s, at, denied)
    {
      hide DiagnosticsModel.Prune, Refresh;
      Prune(at);
      if id !in nodes || nodes[id].identity != identity {
        return Some(NoSuchLease);
      }
      var until := RefreshNode(id, at, denied);
      var n := nodes[id];
      if !n.running || n.session != s.session || n.epoch != s.epoch {
        return Some(NoSuchLease);
      }
      if !ValidSample(s, at) {
        return Some(BadSample);
      }
      if |n.samples| > 0 {
        var last := n.samples[|n.samples| - 1];
        if s.sequence <= last.sequence || s.sampledAt <= last.sampledAt {
          return Some(BadSample);
        }
        if at - n.acceptedAt < ACCEPT_GAP {
          return Some(OverBudget);
        }
      }
      var age := at - s.sampledAt;
      if age < 0 {
        age := 0;
      }
      n := n.(acceptedAt := at, freshUntil := at + (FRESH - age), samples := n.samples + [s]);
      if |n.samples| > MAX_SAMPLES {
        n := n.(samples := n.samples[|n.samples| - MAX_SAMPLES..]);
      }
      nodes := nodes[id := n];
      failure := None;
    }
  }

  function OfPrincipal(vs: map<string, Viewer>, ks: set<string>, principal: int): set<string> {
    set k | k in ks && k in vs && vs[k].principal == principal
  }

  lemma OneOfPrincipal(vs: map<string, Viewer>, ks: set<string>, principal: int, k: string)
    requires k in ks && k in vs
    ensures |OfPrincipal(vs, ks, principal)| == |OfPrincipal(vs, ks - {k}, principal)| + (if vs[k].principal == principal then 1 else 0)
  {
    var less := OfPrincipal(vs, ks - {k}, principal);
    assert OfPrincipal(vs, ks, principal) == if vs[k].principal == principal then less + {k} else less;
  }

  /** The number of viewers, and of those of one principal. */
  method CountOne(vs: map<string, Viewer>, principal: int) returns (total: nat, own: nat)
    ensures total == |vs|
    ensures own == |OfPrincipal(vs, vs.Keys, principal)|
  {
    total, own := 0, 0;
    var todo := vs.Keys;
    while todo != {}
      invariant todo <= vs.Keys
      invariant total + |todo| == |vs|
      invariant own + |OfPrincipal(vs, todo, principal)| == |OfPrincipal(vs, vs.Keys, principal)|
      decreases |todo|
    {
      var k := Pick(todo);
      OneOfPrincipal(vs, todo, principal, k);
      total := total + 1;
      if vs[k].principal == principal {
        own := own + 1;
      }
      todo := todo - {k};
    }
  }

  lemma PairsWith(id: int, ks: set<string>)
    ensures |set k | k in ks :: (id, k)| == |ks|
  {
    if ks != {} {
      var k :| k in ks;
      PairsWith(id, ks - {k});
      assert (set j | j in ks :: (id, j)) == (set j | j in ks - {k} :: (id, j)) + {(id, k)};
    }
  }

  lemma EmptyCounts(principal: int)
    ensures |AllViewers(map[])| == 0 && |OwnViewers(map[], principal)| == 0 && |ActiveNodes(map[])| == 0
  {
    assert AllViewers(map[]) == {} && OwnViewers(map[], principal) == {} && ActiveNodes(map[]) == {};
  }

  lemma IdleAfterPrune(n: Record, at: Time)
    ensures Idle(n, at) <==> PruneRecord(n, at).viewers == map[] && at - PruneRecord(n, at).touchedAt > IDLE_RECORD
  {
  }

  /** Adding one node to a table adds its own counts. */
  lemma NodeCounts(done: map<int, Record>, id: int, n: Record, principal: int)
    requires id !in done
    ensures |AllViewers(done[id := n])| == |AllViewers(done)| + |n.viewers|
    ensures |OwnViewers(done[id := n], principal)| == |OwnViewers(done, principal)| + |OfPrincipal(n.viewers, n.viewers.Keys, principal)|
    ensures |ActiveNodes(done[id := n])| == |ActiveNodes(done)| + (if n.viewers != map[] then 1 else 0)
  {
    var mine := OfPrincipal(n.viewers, n.viewers.Keys, principal);
    AllSplits(done, id, n);
    OwnSplits(done, id, n, principal);
    PairsWith(id, n.viewers.Keys);
    PairsWith(id, mine);
    ActiveSplits(done, id, n);
  }

  lemma TouchedAtBirth(nodes: map<int, Record>, id: int, identity: string, at: Time, next: Token)
    ensures var n := NewRecord(identity, at, next); nodes[id := n][id := n.(touchedAt := at)] == nodes[id := n]
  {
  }

  lemma AllSplits(done: map<int, Record>, id: int, n: Record)
    requires id !in done
    ensures |AllViewers(done[id := n])| == |AllViewers(done)| + |set k | k in n.viewers.Keys :: (id, k)|
  {
    var more := set k | k in n.viewers.Keys :: (id, k);
    var all := done[id := n];
    forall o, k
      ensures (o, k) in AllViewers(all) <==> (o, k) in AllViewers(done) + more
    {
      if o == id {
        assert (o, k) !in AllViewers(done);
        assert all[o] == n;
      } else if o in done {
        assert all[o] == done[o];
      }
    }
    assert AllViewers(all) == AllViewers(done) + more;
    assert AllViewers(done) !! more;
  }

  lemma OwnSplits(done: map<int, Record>, id: int, n: Record, principal: int)
    requires id !in done
    ensures var mine := OfPrincipal(n.viewers, n.viewers.Keys, principal);
      |OwnViewers(done[id := n], principal)| == |OwnViewers(done, principal)| + |set k | k in mine :: (id, k)|
  {
    var mine := OfPrincipal(n.viewers, n.viewers.Keys, principal);
    var more := set k | k in mine :: (id, k);
    var all := done[id := n];
    forall o, k
      ensures (o, k) in OwnViewers(all, principal) <==> (o, k) in OwnViewers(done, principal) + more
    {
      if o == id {
        assert (o, k) !in OwnViewers(done, principal);
        assert all[o] == n;
      } else if o in done {
        assert all[o] == done[o];
      }
    }
    assert OwnViewers(all, principal) == OwnViewers(done, principal) + more;
    assert OwnViewers(done, principal) !! more;
  }

  lemma ActiveSplits(done: map<int, Record>, id: int, n: Record)
    requires id !in done
    ensures |ActiveNodes(done[id := n])| == |ActiveNodes(done)| + (if n.viewers != map[] then 1 else 0)
  {
    assert ActiveNodes(done[id := n]) == ActiveNodes(done) + (if n.viewers != map[] then {id} else {});
  }
}
