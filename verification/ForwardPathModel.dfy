/** Versioned path composition: immutable revisions that pin other revisions and captured
    line versions, with a flattened list of hops stored beside every revision. */
module ForwardPathModel {
  import opened Collections

  const MAX_DEPTH := 8
  const MAX_HOPS := 8

  datatype Error = Invalid | NotFound | Conflict | Cycle | TooDeep | Revisit | TooLong | InUse | Unavailable

  datatype Result<+T> = Ok(value: T) | Err(error: Error)

  /** A hop key: a name, or a hop of a source under the step that refers to it.  The digest
      by which the panel joins the two is taken to be injective. */
  datatype Key = Name(id: string) | Under(step: string, key: Key)

  datatype Hop = Hop(key: Key, node: int, ingress: Option<int>, mode: string, backend: string)

  datatype Step = Step(id: string, node: int, path: int, revision: int, line: int, lineVersion: int,
                       landing: bool, ingress: Option<int>, mode: string, backend: string)

  datatype RevId = RevId(path: int, revision: int)

  datatype Pin = Pin(line: int, version: int, landing: bool)

  datatype Revision = Revision(steps: seq<Step>, hops: seq<Hop>, depth: int)

  /** The tables: current versions, revisions, captured lines, revisions used by routes, and the
      identifier the next path will get. */
  datatype Store = Store(paths: map<int, int>, revisions: map<RevId, Revision>, pins: map<Pin, seq<Hop>>,
                         routes: set<RevId>, nextId: int)

  datatype Member = Member(id: string, node: int, ingress: Option<int>, mode: string)

  datatype LiveLine = LiveLine(version: int, backend: string, groups: seq<seq<Member>>, landing: Option<Hop>)

  /** The rest of the panel as a transaction sees it: usable servers with their ingresses, live
      lines, lines barred by a rollout or owned by a route, and which tags are well formed. */
  datatype World = World(servers: map<int, set<int>>, lines: map<int, LiveLine>, barred: set<int>, owned: set<int>, tags: iset<string>)

  function SourceOf(st: Step): RevId { RevId(st.path, st.revision) }

  function PinOf(st: Step): Pin { Pin(st.line, st.lineVersion, st.landing) }

  function Rekey(step: string, hops: seq<Hop>): (r: seq<Hop>)
    ensures |r| == |hops|
  {
    seq(|hops|, i requires 0 <= i < |hops| => hops[i].(key := Under(step, hops[i].key)))
  }

  // ----- reading a store ----------------------------------------------------------------

  /** References resolve, and a source is less deep than what refers to it. */
  ghost predicate StepResolved(s: Store, st: Step, depth: int) {
    && (st.path > 0 ==> SourceOf(st) in s.revisions && 1 <= s.revisions[SourceOf(st)].depth < depth)
    && (st.line > 0 ==> PinOf(st) in s.pins)
  }

  ghost predicate StepsResolved(s: Store, steps: seq<Step>, depth: int) {
    forall i | 0 <= i < |steps| :: StepResolved(s, steps[i], depth)
  }

  ghost predicate Resolved(s: Store) {
    forall r | r in s.revisions :: s.revisions[r].depth >= 1 && StepsResolved(s, s.revisions[r].steps, s.revisions[r].depth)
  }

  /** The hops one step stands for, following references to the end. */
  ghost function StepExpansion(s: Store, st: Step, depth: int): seq<Hop>
    requires Resolved(s) && depth >= 0 && StepResolved(s, st, depth)
    decreases depth, 0, 0
  {
    if st.node > 0 then [Hop(Name(st.id), st.node, st.ingress, st.mode, st.backend)]
    else if st.path > 0 then Rekey(st.id, Expansion(s, s.revisions[SourceOf(st)].steps, s.revisions[SourceOf(st)].depth))
    else if st.line > 0 then Rekey(st.id, s.pins[PinOf(st)])
    else []
  }

  ghost function Expansion(s: Store, steps: seq<Step>, depth: int): seq<Hop>
    requires Resolved(s) && depth >= 0 && StepsResolved(s, steps, depth)
    decreases depth, 1, |steps|
  {
    if steps == [] then []
    else Expansion(s, steps[..|steps| - 1], depth) + StepExpansion(s, steps[|steps| - 1], depth)
  }

  /** The path `wanted` occurs at or below the revision `from`. */
  ghost predicate Reaches(s: Store, from: RevId, wanted: int)
    requires Resolved(s)
    decreases if from in s.revisions then s.revisions[from].depth else 0
  {
    || from.path == wanted
    || (from in s.revisions && exists i | 0 <= i < |s.revisions[from].steps| ::
          s.revisions[from].steps[i].path > 0
          && StepResolved(s, s.revisions[from].steps[i], s.revisions[from].depth)
          && Reaches(s, SourceOf(s.revisions[from].steps[i]), wanted))
  }

  function SourceDepth(s: Store, st: Step): int {
    if st.path > 0 && SourceOf(st) in s.revisions then s.revisions[SourceOf(st)].depth else 0
  }

  function DeepestSource(s: Store, steps: seq<Step>): int {
    if steps == [] then 0
    else
      var rest := DeepestSource(s, steps[..|steps| - 1]);
      var last := SourceDepth(s, steps[|steps| - 1]);
      if last > rest then last else rest
  }

  // ----- composing a path ---------------------------------------------------------------

  predicate ValidBackend(b: string) { b in {"", "relay", "realm", "nft"} }

  predicate ValidMode(m: string) { m in {"", "default", "internal"} }

  function WireBackend(b: string): string { if b == "relay" then "" else b }

  function LineHops(l: LiveLine, n: nat): seq<Hop>
    requires n <= |l.groups| && forall i | 0 <= i < n :: |l.groups[i]| == 1
  {
    if n == 0 then []
    else
      var m := l.groups[n - 1][0];
      LineHops(l, n - 1) + [Hop(Name(m.id), m.node, m.ingress, m.mode, WireBackend(l.backend))]
  }

  /** Capture a live line for a pin that nobody holds yet. */
  function Capture(w: World, st: Step): Result<seq<Hop>> {
    if st.line in w.owned then Err(Invalid)
    else if st.line !in w.lines then Err(NotFound)
    else
      var l := w.lines[st.line];
      if l.version != st.lineVersion then Err(Conflict)
      else if !ValidBackend(l.backend) then Err(Invalid)
      else if exists i | 0 <= i < |l.groups| :: |l.groups[i]| != 1 then Err(Invalid)
      else if !st.landing then Ok(LineHops(l, |l.groups|))
      else if l.landing.None? then Err(Invalid)
      else Ok(LineHops(l, |l.groups|) + [l.landing.value.(key := Name("landing"), backend := "")])
  }

  function PinnedHops(pins: map<Pin, seq<Hop>>, w: World, st: Step): Result<seq<Hop>> {
    if st.line in w.barred then Err(Unavailable)
    else if PinOf(st) in pins then Ok(pins[PinOf(st)])
    else Capture(w, st)
  }

  predicate OneSource(st: Step) {
    && st.node >= 0 && st.path >= 0 && st.line >= 0
    && (if st.node > 0 then 1 else 0) + (if st.path > 0 then 1 else 0) + (if st.line > 0 then 1 else 0) == 1
  }

  predicate NodeStepOk(st: Step) {
    ValidBackend(st.backend) && st.revision == 0 && st.lineVersion == 0 && !st.landing && ValidMode(st.mode)
  }

  predicate PathStepOk(st: Step) {
    st.backend == "" && st.revision >= 1 && st.ingress == None && st.mode == "" && st.lineVersion == 0 && !st.landing
  }

  predicate LineStepOk(st: Step) {
    st.backend == "" && st.lineVersion >= 1 && st.ingress == None && st.mode == "" && st.revision == 0
  }

  /** A composition in progress. */
  datatype Draft = Draft(ids: set<string>, nodes: set<int>, pins: map<Pin, seq<Hop>>, hops: seq<Hop>, depth: int)

  /** Append hops one by one, refusing a server already on the path. */
  function Visit(d: Draft, w: World, hops: seq<Hop>): Result<Draft> {
    if hops == [] then Ok(d)
    else
      var before := Visit(d, w, hops[..|hops| - 1]);
      if before.Err? then before
      else
        var h := hops[|hops| - 1];
        if h.node in before.value.nodes then Err(Revisit)
        else if h.node !in w.servers then Err(NotFound)
        else if h.ingress.Some? && h.ingress.value !in w.servers[h.node] then Err(Invalid)
        else Ok(before.value.(nodes := before.value.nodes + {h.node}, hops := before.value.hops + [h]))
  }

  function Deeper(d: Draft, depth: int): Draft { if depth > d.depth then d.(depth := depth) else d }

  /** One step of a composition of path `id`. */
  ghost function AddStep(s: Store, w: World, id: int, d: Draft, st: Step): Result<Draft>
    requires Resolved(s)
  {
    if |st.id| > 24 || st.id !in w.tags || st.id in d.ids then Err(Invalid)
    else if !OneSource(st) then Err(Invalid)
    else
      var d := d.(ids := d.ids + {st.id});
      var source: Result<(Draft, seq<Hop>)> :=
        if st.node > 0 then
          if !NodeStepOk(st) then Err(Invalid)
          else Ok((d, [Hop(Name(st.id), st.node, st.ingress, st.mode, st.backend)]))
        else if st.path > 0 then
          if !PathStepOk(st) then Err(Invalid)
          else if Reaches(s, SourceOf(st), id) then Err(Cycle)
          else if SourceOf(st) !in s.revisions then Err(NotFound)
          else
            var d := Deeper(d, s.revisions[SourceOf(st)].depth + 1);
            if d.depth > MAX_DEPTH then Err(TooDeep)
            else Ok((d, Rekey(st.id, s.revisions[SourceOf(st)].hops)))
        else
          if !LineStepOk(st) then Err(Invalid)
          else
            var hops := PinnedHops(d.pins, w, st);
            if hops.Err? then Err(hops.error)
            else Ok((d.(pins := d.pins[PinOf(st) := hops.value]), Rekey(st.id, hops.value)));
      if source.Err? then Err(source.error)
      else
        var next := Visit(source.value.0, w, source.value.1);
        if next.Ok? && |next.value.hops| > MAX_HOPS then Err(TooLong) else next
  }

  ghost function Compose(s: Store, w: World, id: int, steps: seq<Step>): Result<Draft>
    requires Resolved(s)
  {
    if steps == [] then Ok(Draft({}, {}, s.pins, [], 1))
    else
      var before := Compose(s, w, id, steps[..|steps| - 1]);
      if before.Err? then before else AddStep(s, w, id, before.value, steps[|steps| - 1])
  }

  // ----- transactions --------------------------------------------------------------------

  /** Steps without an identifier get a random one. */
  function Named(steps: seq<Step>, texts: seq<string>): (r: seq<Step>)
    requires |texts| == |steps|
    ensures |r| == |steps|
  {
    seq(|steps|, i requires 0 <= i < |steps| => if steps[i].id == "" then steps[i].(id := texts[i]) else steps[i])
  }

  /** The last step of `before` with this identifier. */
  function Prior(before: seq<Step>, id: string): Option<Step> {
    if before == [] then None
    else if before[|before| - 1].id == id then Some(before[|before| - 1])
    else Prior(before[..|before| - 1], id)
  }

  /** A node step saved without a backend keeps the backend it had. */
  function KeepBackend(before: seq<Step>, st: Step): Step {
    var prior := Prior(before, st.id);
    if prior.Some? && st.id != "" && st.backend == "" && st.node > 0 && st.node == prior.value.node
       && st.path == 0 && st.line == 0 && prior.value.path == 0 && prior.value.line == 0
    then st.(backend := prior.value.backend) else st
  }

  function KeepBackends(before: seq<Step>, steps: seq<Step>): (r: seq<Step>)
    ensures |r| == |steps|
  {
    seq(|steps|, i requires 0 <= i < |steps| => KeepBackend(before, steps[i]))
  }

  /** Hop keys are a primary key of the stored hops. */
  predicate DistinctKeys(hops: seq<Hop>) {
    forall i, j | 0 <= i < j < |hops| :: hops[i].key != hops[j].key
  }

  /** Store a composed revision of a path. */
  function Insert(s: Store, r: RevId, steps: seq<Step>, d: Draft): Store {
    s.(paths := s.paths[r.path := r.revision],
       revisions := s.revisions[r := Revision(steps, d.hops, d.depth)],
       pins := d.pins,
       nextId := if r.path >= s.nextId then r.path + 1 else s.nextId)
  }

  ghost function SaveAs(s: Store, w: World, r: RevId, steps: seq<Step>): Result<Store>
    requires Resolved(s)
  {
    if !(1 <= |steps| <= MAX_HOPS) then Err(Invalid)
    else
      var d := Compose(s, w, r.path, steps);
      if d.Err? then Err(d.error)
      else if !DistinctKeys(d.value.hops) then Err(Conflict)
      else Ok(Insert(s, r, steps, d.value))
  }

  /** Save a path: a new one (`id` zero) or the next revision of the version the caller saw. */
  ghost function Save(s: Store, w: World, id: int, version: int, steps: seq<Step>, texts: seq<string>): Result<Store>
    requires Resolved(s) && |texts| == |steps|
  {
    if id == 0 then SaveAs(s, w, RevId(s.nextId, 1), Named(steps, texts))
    else if id !in s.paths then Err(NotFound)
    else if s.paths[id] != version then Err(Conflict)
    else if RevId(id, version) !in s.revisions then Err(NotFound)
    else SaveAs(s, w, RevId(id, version + 1), Named(KeepBackends(s.revisions[RevId(id, version)].steps, steps), texts))
  }

  /** Some step of some revision refers to the path. */
  predicate Referenced(s: Store, id: int) {
    exists r, i | r in s.revisions && 0 <= i < |s.revisions[r].steps| :: s.revisions[r].steps[i].path > 0 && s.revisions[r].steps[i].path == id
  }

  predicate PinUsed(revisions: map<RevId, Revision>, pin: Pin) {
    exists r, i | r in revisions && 0 <= i < |revisions[r].steps| ::
      revisions[r].steps[i].line > 0 && PinOf(revisions[r].steps[i]) == pin
  }

  predicate Routed(s: Store, id: int) { exists r | r in s.routes :: r.path == id }

  /** Delete a path that no revision and no route refers to, and forget unused captures. */
  function Remove(s: Store, id: int): Store {
    var left := map r | r in s.revisions && r.path != id :: s.revisions[r];
    s.(paths := s.paths - {id}, revisions := left, pins := map p | p in s.pins && PinUsed(left, p) :: s.pins[p])
  }

  function Delete(s: Store, id: int, version: int): Result<Store> {
    if id !in s.paths then Err(NotFound)
    else if s.paths[id] != version then Err(Conflict)
    else if Referenced(s, id) || Routed(s, id) then Err(InUse)
    else Ok(Remove(s, id))
  }

  predicate LineReferenced(s: Store, line: int) {
    exists r, i | r in s.revisions && 0 <= i < |s.revisions[r].steps| :: s.revisions[r].steps[i].line > 0 && s.revisions[r].steps[i].line == line
  }

  /** Deleting a source line takes its captures with it, unless a revision refers to the line. */
  function ForgetLine(s: Store, line: int): Result<Store> {
    if LineReferenced(s, line) then Err(InUse)
    else Ok(s.(pins := map p | p in s.pins && p.line != line :: s.pins[p]))
  }
}
