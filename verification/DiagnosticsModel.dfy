/** The live-diagnostics broker as a state machine on values.

    Times are milliseconds.  The random identifiers of the panel are drawn from a
    counter, so that a later draw differs from every earlier one and "drawn later"
    is "greater".  Object identity, which the expiry timer compares, is a draw too. */
module DiagnosticsModel {
  import opened Collections

  type Time = int
  type Token = nat

  const ZERO_TIME: Time := 0
  const VIEWER_TTL := 30_000
  const FRESH := 3_000
  const CAPABILITY_FRESH := 70_000
  const CONTROL_TTL := 15_000
  const REFRESH := 5_000
  const CANDIDATE_TTL := 60_000
  const RETIRED_TTL := 600_000
  const TOMBSTONE_TTL := 300_000
  const IDLE_RECORD := 300_000
  const ACCEPT_GAP := 500

  const MAX_RECORDS := 1024
  const MAX_CANDIDATES := 8
  const MAX_RETIRED := 64
  const MAX_NODE_VIEWERS := 8
  const MAX_VIEWERS := 32
  const MAX_PRINCIPAL := 4
  const MAX_ACTIVE_NODES := 8
  const OPEN_TOMBSTONES := 480
  const MAX_SAMPLES := 120
  const MAX_SAFE_INTEGER := 9007199254740991

  datatype Viewer = Viewer(owner: string, principal: int, until: Time, serial: Token)

  datatype Candidate = Candidate(challenge: Token, parent: Token, epoch: Token, generation: nat, until: Time)

  /** `readingsValid` stands for the checks on the metric values and interface names. */
  datatype Sample = Sample(session: string, epoch: int, sequence: nat, sampledAt: Time, elapsed: int, readingsValid: bool)

  datatype Record = Record(
    identity: string, birth: Token,
    session: string, head: Token, epoch: Token, generation: nat,
    commandAt: Time, capabilityAt: Time, acceptedAt: Time, freshUntil: Time, touchedAt: Time,
    running: bool,
    viewers: map<string, Viewer>,
    candidates: map<string, Candidate>,
    retired: map<string, Time>,
    samples: seq<Sample>)

  datatype LeaseKey = LeaseKey(node: int, owner: string, lease: string)

  datatype Broker = Broker(nodes: map<int, Record>, tombstones: map<LeaseKey, Time>, next: Token)

  datatype Failure = Unavailable | OverBudget | NoSuchLease | BadSample

  datatype ControlReply =
    | NoRecord
    | Refused
    | Command(challenge: Option<Token>, epoch: Token, generation: nat, remaining: int)

  datatype LeaseReply = LeaseRefused(failure: Failure) | Granted(ttl: int)

  datatype Status = Expired | Waiting | Stale | Live

  datatype View = View(status: Status, freshFor: int, epoch: Option<Token>, latest: nat, samples: seq<Sample>)

  // ----- the lock-held helpers -------------------------------------------------

  function PruneRecord(n: Record, at: Time): Record {
    n.(viewers := map k | k in n.viewers && at < n.viewers[k].until :: n.viewers[k],
       candidates := map k | k in n.candidates && at < n.candidates[k].until :: n.candidates[k],
       retired := map k | k in n.retired && at < n.retired[k] :: n.retired[k])
  }

  predicate Idle(n: Record, at: Time) {
    PruneRecord(n, at).viewers == map[] && at - n.touchedAt > IDLE_RECORD
  }

  function Prune(b: Broker, at: Time): Broker {
    b.(tombstones := map k | k in b.tombstones && at < b.tombstones[k] :: b.tombstones[k],
       nodes := map id | id in b.nodes && !Idle(b.nodes[id], at) :: PruneRecord(b.nodes[id], at))
  }

  function NewRecord(identity: string, at: Time, next: Token): Record {
    Record(identity, next, "", next, next + 1, 0, ZERO_TIME, ZERO_TIME, ZERO_TIME, ZERO_TIME, at,
           false, map[], map[], map[], [])
  }

  /** The record of a node under its current identity, created on demand; the
      node is absent from the result only when the table is full. */
  function Ensure(b: Broker, id: int, identity: string, at: Time): (c: Broker)
    ensures b.next <= c.next && c.tombstones == b.tombstones
    ensures forall o | o != id :: o in c.nodes <==> o in b.nodes
  {
    if id in b.nodes && b.nodes[id].identity == identity then
      b.(nodes := b.nodes[id := b.nodes[id].(touchedAt := at)])
    else
      var others := b.nodes - {id};
      if |others| >= MAX_RECORDS then b.(nodes := others)
      else b.(nodes := others[id := NewRecord(identity, at, b.next)], next := b.next + 2)
  }

  /** Keep the viewers that are neither expired nor denied by their authorization callback. */
  function ValidViewers(n: Record, at: Time, denied: set<string>): Record {
    n.(viewers := map k | k in n.viewers && at < n.viewers[k].until && k !in denied :: n.viewers[k])
  }

  /** The latest deadline of a set of viewers, or the zero time. */
  ghost function Latest(vs: map<string, Viewer>): Time {
    if vs == map[] then ZERO_TIME
    else
      var k :| k in vs;
      var rest := Latest(vs - {k});
      if vs == map[k := vs[k]] || vs[k].until > rest then vs[k].until else rest
  }

  /** Start or stop sampling; a change begins a new epoch with an empty ring. */
  function UpdateRunning(n: Record, at: Time, live: bool, next: Token): (Record, Token) {
    var running := live && n.session != "";
    if running != n.running then
      (n.(running := running, generation := n.generation + 1, commandAt := at, epoch := next,
          samples := [], acceptedAt := ZERO_TIME, freshUntil := ZERO_TIME), next + 1)
    else if running && at - n.commandAt >= REFRESH then
      (n.(generation := n.generation + 1, commandAt := at), next)
    else
      (n, next)
  }

  /** Drop dead viewers and bring sampling in line with what is left. */
  function Refresh(b: Broker, id: int, at: Time, denied: set<string>): (c: Broker)
    requires id in b.nodes
    ensures c.nodes.Keys == b.nodes.Keys && c.tombstones == b.tombstones && b.next <= c.next
  {
    var n := ValidViewers(b.nodes[id], at, denied);
    var (m, next) := UpdateRunning(n, at, n.viewers != map[], b.next);
    b.(nodes := b.nodes[id := m], next := next)
  }

  // ----- the operations ----------------------------------------------------------

  /** The session answers a live challenge bound to the current head. */
  predicate Accepts(n: Record, session: string, echo: int, at: Time) {
    && session in n.candidates
    && echo == n.candidates[session].challenge
    && n.candidates[session].parent == n.head
    && at < n.candidates[session].until
  }

  function TakeOver(n: Record, session: string, at: Time, next: Token): Record {
    n.(retired := if n.session != "" then n.retired[n.session := at + RETIRED_TTL] else n.retired,
       session := session, head := next, epoch := next + 1,
       generation := n.generation + 1, commandAt := at,
       samples := [], acceptedAt := ZERO_TIME, freshUntil := ZERO_TIME,
       candidates := n.candidates - {session})
  }

  function Challenge(n: Record, session: string, at: Time, next: Token): Record {
    n.(generation := n.generation + 1,
       candidates := n.candidates[session := Candidate(next, n.head, next + 1, n.generation + 1, at + CANDIDATE_TTL)])
  }

  ghost function Activate(b: Broker, id: int, at: Time, denied: set<string>): (r: (Broker, ControlReply))
    requires id in b.nodes
    ensures r.0.nodes.Keys == b.nodes.Keys && b.next <= r.0.next
  {
    var c := Refresh(b.(nodes := b.nodes[id := b.nodes[id].(capabilityAt := at)]), id, at, denied);
    var n := c.nodes[id];
    var left := Latest(n.viewers) - at;
    (c, Command(None, n.epoch, n.generation,
                if !n.running then 0 else if left > CONTROL_TTL then CONTROL_TTL else left))
  }

  ghost function ControlRecord(b: Broker, id: int, session: string, echo: int, at: Time, denied: set<string>): (r: (Broker, ControlReply))
    requires id in b.nodes
    ensures r.0.nodes.Keys == b.nodes.Keys && b.next <= r.0.next
  {
    var n := b.nodes[id];
    if session in n.retired then
      (b, Command(None, n.epoch, n.generation, 0))
    else if n.session == session then
      Activate(b, id, at, denied)
    else if Accepts(n, session, echo, at) then
      Activate(b.(nodes := b.nodes[id := TakeOver(n, session, at, b.next)], next := b.next + 2), id, at, denied)
    else if session in n.candidates && n.candidates[session].parent == n.head then
      var c := n.candidates[session];
      (b, Command(Some(c.challenge), c.epoch, c.generation, 0))
    else if |n.candidates| >= MAX_CANDIDATES || |n.retired| >= MAX_RETIRED then
      (b, Refused)
    else
      (b.(nodes := b.nodes[id := Challenge(n, session, at, b.next)], next := b.next + 2),
       Command(Some(b.next), b.next + 1, n.generation + 1, 0))
  }

  /** An agent poll.  Only an echoed challenge lets an unknown process take over. */
  ghost function Control(b: Broker, id: int, identity: string, session: string, echo: int, at: Time, denied: set<string>): (Broker, ControlReply) {
    var c := Ensure(Prune(b, at), id, identity, at);
    if id !in c.nodes then (c, NoRecord) else ControlRecord(c, id, session, echo, at, denied)
  }

  predicate IdChar(c: char) {
    'a' <= c <= 'z' || 'A' <= c <= 'Z' || '0' <= c <= '9' || c == '_' || c == '-'
  }

  predicate WellFormedId(s: string) {
    16 <= |s| <= 64 && forall i | 0 <= i < |s| :: IdChar(s[i])
  }

  /** Every live viewer of the broker, by node and lease. */
  function AllViewers(nodes: map<int, Record>): set<(int, string)> {
    set id, k | id in nodes && k in nodes[id].viewers :: (id, k)
  }

  function OwnViewers(nodes: map<int, Record>, principal: int): set<(int, string)> {
    set id, k | id in nodes && k in nodes[id].viewers && nodes[id].viewers[k].principal == principal :: (id, k)
  }

  function ActiveNodes(nodes: map<int, Record>): set<int> {
    set id | id in nodes && nodes[id].viewers != map[]
  }

  predicate OverLimits(b: Broker, id: int, principal: int)
    requires id in b.nodes
  {
    || |b.nodes[id].viewers| >= MAX_NODE_VIEWERS
    || |AllViewers(b.nodes)| >= MAX_VIEWERS
    || |OwnViewers(b.nodes, principal)| >= MAX_PRINCIPAL
    || (b.nodes[id].viewers == map[] && |ActiveNodes(b.nodes)| >= MAX_ACTIVE_NODES)
  }

  /** Set a viewer's deadline and refresh sampling. */
  function GrantViewer(b: Broker, id: int, lease: string, v: Viewer, at: Time, denied: set<string>): (c: Broker)
    requires id in b.nodes
    ensures c.nodes.Keys == b.nodes.Keys && c.tombstones == b.tombstones && b.next <= c.next
  {
    var n := b.nodes[id];
    Refresh(b.(nodes := b.nodes[id := n.(viewers := n.viewers[lease := v])]), id, at, denied)
  }

  function LeaseRecord(b: Broker, id: int, owner: string, principal: int, lease: string, renew: bool, at: Time, denied: set<string>): (r: (Broker, LeaseReply))
    requires id in b.nodes
    ensures r.0.nodes.Keys == b.nodes.Keys && b.next <= r.0.next
  {
    var n := b.nodes[id];
    if n.session == "" || at - n.capabilityAt > CAPABILITY_FRESH then (b, LeaseRefused(Unavailable))
    else if LeaseKey(id, owner, lease) in b.tombstones then (b, LeaseRefused(NoSuchLease))
    else if lease in n.viewers && n.viewers[lease].owner != owner then (b, LeaseRefused(NoSuchLease))
    else if lease in n.viewers then
      var v := n.viewers[lease];
      if v.until - at > VIEWER_TTL - REFRESH then (b, Granted(v.until - at))
      else (GrantViewer(b, id, lease, v.(until := at + VIEWER_TTL), at, denied), Granted(VIEWER_TTL))
    else if renew then (b, LeaseRefused(NoSuchLease))
    else if |b.tombstones| >= OPEN_TOMBSTONES || OverLimits(b, id, principal) then (b, LeaseRefused(OverBudget))
    else
      (GrantViewer(b.(next := b.next + 1), id, lease, Viewer(owner, principal, at + VIEWER_TTL, b.next), at, denied),
       Granted(VIEWER_TTL))
  }

  function Lease(b: Broker, id: int, identity: string, owner: string, principal: int, lease: string, renew: bool, at: Time, denied: set<string>): (Broker, LeaseReply) {
    var p := Prune(b, at);
    if !WellFormedId(lease) then (p, LeaseRefused(NoSuchLease))
    else
      var c := Ensure(p, id, identity, at);
      if id !in c.nodes then (c, LeaseRefused(Unavailable))
      else LeaseRecord(c, id, owner, principal, lease, renew, at, denied)
  }

  predicate Owned(b: Broker, id: int, identity: string, owner: string, lease: string) {
    && id in b.nodes && b.nodes[id].identity == identity
    && lease in b.nodes[id].viewers && b.nodes[id].viewers[lease].owner == owner
  }

  /** Remove one viewer; the last one to leave stops sampling. */
  function DropViewer(b: Broker, id: int, lease: string, at: Time): (c: Broker)
    requires id in b.nodes
    ensures c.nodes.Keys == b.nodes.Keys && c.tombstones == b.tombstones && b.next <= c.next
  {
    var n := b.nodes[id].(viewers := b.nodes[id].viewers - {lease});
    var (m, next) := if n.viewers == map[] then UpdateRunning(n, at, false, b.next) else (n, b.next);
    b.(nodes := b.nodes[id := m], next := next)
  }

  function Release(b: Broker, id: int, identity: string, owner: string, lease: string, at: Time): (Broker, Option<Failure>) {
    var p := Prune(b, at);
    var k := LeaseKey(id, owner, lease);
    if !WellFormedId(lease) then (p, Some(NoSuchLease))
    else if k !in p.tombstones && |p.tombstones| >= OPEN_TOMBSTONES && !Owned(p, id, identity, owner, lease) then (p, Some(OverBudget))
    else
      var q := p.(tombstones := p.tombstones[k := at + TOMBSTONE_TTL]);
      (if Owned(p, id, identity, owner, lease) then DropViewer(q, id, lease, at) else q, None)
  }

  /** The expiry timer set by a grant: it names the record, viewer and deadline it was set for. */
  function Expire(b: Broker, id: int, birth: Token, lease: string, serial: Token, expires: Time, at: Time): Broker {
    if id in b.nodes && b.nodes[id].birth == birth && lease in b.nodes[id].viewers
       && b.nodes[id].viewers[lease].serial == serial && b.nodes[id].viewers[lease].until == expires
    then DropViewer(b, id, lease, at)
    else b
  }

  /** The samples a client has not seen yet. */
  function NewerThan(samples: seq<Sample>, after: nat): seq<Sample> {
    if samples == [] then []
    else (if samples[0].sequence > after then [samples[0]] else []) + NewerThan(samples[1..], after)
  }

  function ViewOf(n: Record, after: nat, at: Time): View {
    var idle := if at - n.capabilityAt > CAPABILITY_FRESH then Stale else Waiting;
    if n.samples == [] then View(idle, 0, Some(n.epoch), 0, [])
    else
      var left := n.freshUntil - at;
      var usable := if left > FRESH then 0 else left;
      View(if usable > 0 then Live else Stale, if usable > 0 then usable else 0, Some(n.epoch),
           n.samples[|n.samples| - 1].sequence, NewerThan(n.samples, after))
  }

  const NO_VIEW := View(Expired, 0, None, 0, [])

  /** `None` is the refusal of a lease held by somebody else. */
  function Snapshot(b: Broker, id: int, identity: string, owner: string, lease: string, after: nat, at: Time, denied: set<string>): (Broker, Option<View>) {
    var p := Prune(b, at);
    if id !in p.nodes || p.nodes[id].identity != identity then (p, Some(NO_VIEW))
    else
      var c := Refresh(p, id, at, denied);
      var n := c.nodes[id];
      if lease !in n.viewers then (c, Some(NO_VIEW))
      else if n.viewers[lease].owner != owner then (c, None)
      else (c, Some(ViewOf(n, after, at)))
  }

  predicate ValidSample(s: Sample, at: Time) {
    && 0 < s.sequence <= MAX_SAFE_INTEGER
    && 0 <= s.elapsed <= MAX_SAFE_INTEGER
    && at - 10_000 <= s.sampledAt <= at + 3_000
    && s.readingsValid
  }

  function LastN(samples: seq<Sample>, n: nat): seq<Sample> {
    if |samples| > n then samples[|samples| - n..] else samples
  }

  function Append(n: Record, s: Sample, at: Time): Record {
    var age := if at < s.sampledAt then 0 else at - s.sampledAt;
    n.(acceptedAt := at, freshUntil := at + (FRESH - age), samples := LastN(n.samples + [s], MAX_SAMPLES))
  }

  function RecordSample(b: Broker, id: int, identity: string, s: Sample, at: Time, denied: set<string>): (Broker, Option<Failure>) {
    var p := Prune(b, at);
    if id !in p.nodes || p.nodes[id].identity != identity then (p, Some(NoSuchLease))
    else
      var c := Refresh(p, id, at, denied);
      var n := c.nodes[id];
      if !n.running || n.session != s.session || n.epoch != s.epoch then (c, Some(NoSuchLease))
      else if !ValidSample(s, at) then (c, Some(BadSample))
      else if n.samples != [] && (s.sequence <= n.samples[|n.samples| - 1].sequence || s.sampledAt <= n.samples[|n.samples| - 1].sampledAt) then
        (c, Some(BadSample))
      else if n.samples != [] && at - n.acceptedAt < ACCEPT_GAP then (c, Some(OverBudget))
      else (c.(nodes := c.nodes[id := Append(n, s, at)]), None)
  }

  // ----- runs ----------------------------------------------------------------------

  datatype Event =
    | PollEvent(id: int, identity: string, session: string, echo: int, at: Time, denied: set<string>)
    | LeaseEvent(id: int, identity: string, owner: string, principal: int, lease: string, renew: bool, at: Time, denied: set<string>)
    | ReleaseEvent(id: int, identity: string, owner: string, lease: string, at: Time)
    | SnapshotEvent(id: int, identity: string, owner: string, lease: string, after: nat, at: Time, denied: set<string>)
    | SampleEvent(id: int, identity: string, sample: Sample, at: Time, denied: set<string>)
    | TimerEvent(id: int, birth: Token, lease: string, serial: Token, expires: Time, at: Time)
    | ResetEvent

  const INITIAL := Broker(map[], map[], 0)

  ghost function Step(b: Broker, e: Event): Broker {
    match e
    case PollEvent(id, identity, session, echo, at, denied) => Control(b, id, identity, session, echo, at, denied).0
    case LeaseEvent(id, identity, owner, principal, lease, renew, at, denied) => Lease(b, id, identity, owner, principal, lease, renew, at, denied).0
    case ReleaseEvent(id, identity, owner, lease, at) => Release(b, id, identity, owner, lease, at).0
    case SnapshotEvent(id, identity, owner, lease, after, at, denied) => Snapshot(b, id, identity, owner, lease, after, at, denied).0
    case SampleEvent(id, identity, s, at, denied) => RecordSample(b, id, identity, s, at, denied).0
    case TimerEvent(id, birth, lease, serial, expires, at) => Expire(b, id, birth, lease, serial, expires, at)
    case ResetEvent => b.(nodes := map[], tombstones := map[])
  }

  /** The broker after the first `i` events of a run. */
  ghost function At(run: seq<Event>, i: nat): Broker
    requires i <= |run|
  {
    if i == 0 then INITIAL else Step(At(run, i - 1), run[i - 1])
  }
}
