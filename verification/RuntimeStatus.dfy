/** The four-valued status algebra of the service-status evaluator. */
module RuntimeStatus {
  import opened Collections

  datatype State = Healthy | Degraded | Unknown | Down

  /** `evidence` is kept as a set: the panel keeps it sorted and without repetition. */
  datatype Status = Status(state: State, reason: string, evidence: set<string>, observed: Option<int>)

  function Rank(s: State): nat {
    match s
    case Healthy => 0
    case Degraded => 1
    case Unknown => 2
    case Down => 3
  }

  predicate Usable(s: State) { s == Healthy || s == Degraded }

  function Plain(state: State, reason: string, evidence: set<string>): Status {
    Status(state, reason, evidence, None)
  }

  function Observed(state: State, reason: string, at: int, evidence: set<string>): Status {
    Status(state, reason, evidence, if at > 0 then Some(at) else None)
  }

  /** The older of two observations; an absent one does not count. */
  function Older(a: Option<int>, b: Option<int>): Option<int> {
    if b.Some? && (a.None? || b.value < a.value) then b else a
  }

  // ----- what a list of statuses amounts to ------------------------------------------

  function Worst(parts: seq<Status>): State {
    if parts == [] then Healthy
    else
      var w := Worst(parts[..|parts| - 1]);
      var s := parts[|parts| - 1].state;
      if Rank(s) > Rank(w) then s else w
  }

  /** The reason of the first part that is as bad as the worst. */
  function WorstReason(parts: seq<Status>): string {
    if parts == [] then "healthy"
    else
      var rest := parts[..|parts| - 1];
      var last := parts[|parts| - 1];
      if Rank(last.state) > Rank(Worst(rest)) then last.reason else WorstReason(rest)
  }

  function AllEvidence(parts: seq<Status>): set<string> {
    if parts == [] then {} else AllEvidence(parts[..|parts| - 1]) + parts[|parts| - 1].evidence
  }

  /** The oldest observation among the parts in one of the given states. */
  function Oldest(parts: seq<Status>, states: set<State>): Option<int> {
    if parts == [] then None
    else
      var rest := Oldest(parts[..|parts| - 1], states);
      var last := parts[|parts| - 1];
      if last.state in states then Older(rest, last.observed) else rest
  }

  const ANY: set<State> := {Healthy, Degraded, Unknown, Down}
  const USABLE: set<State> := {Healthy, Degraded}

  /** Components in series: the worst one decides; a failure is as old as the failed parts. */
  function Series(parts: seq<Status>): Status {
    Status(Worst(parts), WorstReason(parts), AllEvidence(parts),
           Oldest(parts, if Worst(parts) == Down then {Down} else ANY))
  }

  predicate SomeIn(parts: seq<Status>, states: set<State>) { exists i | 0 <= i < |parts| :: parts[i].state in states }

  /** All healthy, some usable, some unknown, or all down. */
  function Verdict(parts: seq<Status>): State {
    if SomeIn(parts, USABLE) then
      if SomeIn(parts, {Degraded, Unknown, Down}) then Degraded else Healthy
    else if SomeIn(parts, {Unknown}) then Unknown
    else Down
  }

  /** Alternative paths. */
  function Alternatives(parts: seq<Status>): Status {
    if parts == [] then Plain(Unknown, "no_route", {})
    else if |parts| == 1 then parts[0]
    else
      var v := Verdict(parts);
      Status(v,
             match v
             case Healthy => "healthy"
             case Degraded => if SomeIn(parts, {Degraded, Down}) then "partial_failure" else "partial_unknown"
             case Unknown => "partial_unknown"
             case Down => "no_route",
             AllEvidence(parts),
             Oldest(parts, if Usable(v) then USABLE else ANY))
  }

  // ----- the loops of the panel -------------------------------------------------------

  method ComputeSeries(parts: seq<Status>) returns (out: Status)
    ensures out == Series(parts)
  {
    out := Plain(Healthy, "healthy", {});
    for i := 0 to |parts|
      invariant out == Status(Worst(parts[..i]), WorstReason(parts[..i]), AllEvidence(parts[..i]), Oldest(parts[..i], ANY))
    {
      assert parts[..i + 1][..i] == parts[..i];
      var part := parts[i];
      if Rank(part.state) > Rank(out.state) {
        out := out.(state := part.state, reason := part.reason);
      }
      out := out.(evidence := out.evidence + part.evidence, observed := Older(out.observed, part.observed));
    }
    assert parts[..|parts|] == parts;
    if out.state == Down {
      out := Reobserve(out, parts, {Down});
    }
  }

  /** Date a status by the parts in the given states alone. */
  method Reobserve(whole: Status, parts: seq<Status>, states: set<State>) returns (out: Status)
    requires whole.evidence == AllEvidence(parts)
    ensures out == whole.(observed := Oldest(parts, states))
  {
    out := whole.(observed := None);
    for i := 0 to |parts|
      invariant out == whole.(observed := Oldest(parts[..i], states))
    {
      assert parts[..i + 1][..i] == parts[..i];
      if parts[i].state in states {
        EvidenceOf(parts, i);
        out := out.(evidence := out.evidence + parts[i].evidence, observed := Older(out.observed, parts[i].observed));
      }
    }
    assert parts[..|parts|] == parts;
  }

  lemma {:induction false} EvidenceOf(parts: seq<Status>, i: nat)
    requires i < |parts|
    ensures parts[i].evidence <= AllEvidence(parts)
  {
    if i < |parts| - 1 {
      EvidenceOf(parts[..|parts| - 1], i);
    }
  }

  method ComputeAlternatives(parts: seq<Status>) returns (out: Status)
    ensures out == Alternatives(parts)
  {
    if |parts| == 0 {
      return Plain(Unknown, "no_route", {});
    }
    if |parts| == 1 {
      return parts[0];
    }
    out := Plain(Healthy, "healthy", {});
    var usable, unknown, failed := 0, 0, 0;
    for i := 0 to |parts|
      invariant 0 <= usable && 0 <= unknown && 0 <= failed
      invariant usable > 0 <==> SomeIn(parts[..i], USABLE)
      invariant unknown > 0 <==> SomeIn(parts[..i], {Unknown})
      invariant failed > 0 <==> SomeIn(parts[..i], {Degraded, Down})
      invariant out == Status(Healthy, "healthy", AllEvidence(parts[..i]), Oldest(parts[..i], ANY))
    {
      assert parts[..i + 1][..i] == parts[..i];
      SomeInOneMore(parts, i, USABLE);
      SomeInOneMore(parts, i, {Unknown});
      SomeInOneMore(parts, i, {Degraded, Down});
      out := out.(evidence := out.evidence + parts[i].evidence, observed := Older(out.observed, parts[i].observed));
      match parts[i].state {
        case Healthy => usable := usable + 1;
        case Degraded => usable, failed := usable + 1, failed + 1;
        case Down => failed := failed + 1;
        case Unknown => unknown := unknown + 1;
      }
    }
    assert parts[..|parts|] == parts;
    VerdictCounts(parts);
    if usable > 0 {
      out := Reobserve(out, parts, USABLE);
      if failed > 0 {
        out := out.(state := Degraded, reason := "partial_failure");
      } else if unknown > 0 {
        out := out.(state := Degraded, reason := "partial_unknown");
      }
    } else if unknown > 0 {
      out := out.(state := Unknown, reason := "partial_unknown");
    } else {
      out := out.(state := Down, reason := "no_route");
    }
  }

  lemma SomeInOneMore(parts: seq<Status>, i: nat, states: set<State>)
    requires i < |parts|
    ensures SomeIn(parts[..i + 1], states) <==> SomeIn(parts[..i], states) || parts[i].state in states
  {
    if SomeIn(parts[..i], states) {
      var k :| 0 <= k < i && parts[..i][k].state in states;
      assert parts[..i + 1][k].state in states;
    }
    if parts[i].state in states {
      assert parts[..i + 1][i].state in states;
    }
    if SomeIn(parts[..i + 1], states) {
      var k :| 0 <= k < i + 1 && parts[..i + 1][k].state in states;
      assert k < i ==> parts[..i][k].state in states;
    }
  }

  lemma VerdictCounts(parts: seq<Status>)
    ensures SomeIn(parts, {Degraded, Unknown, Down}) <==> SomeIn(parts, {Unknown}) || SomeIn(parts, {Degraded, Down})
  {
    if SomeIn(parts, {Degraded, Unknown, Down}) {
      var k :| 0 <= k < |parts| && parts[k].state in {Degraded, Unknown, Down};
      assert parts[k].state in {Unknown} || parts[k].state in {Degraded, Down};
    }
    if SomeIn(parts, {Unknown}) {
      var k :| 0 <= k < |parts| && parts[k].state in {Unknown};
      assert parts[k].state in {Degraded, Unknown, Down};
    }
    if SomeIn(parts, {Degraded, Down}) {
      var k :| 0 <= k < |parts| && parts[k].state in {Degraded, Down};
      assert parts[k].state in {Degraded, Unknown, Down};
    }
  }

  // ----- what the summaries mean ---------------------------------------------------------

  /** The worst state is that of some part, none is worse, and the reason is the first such part's. */
  lemma {:induction false} WorstIsWorst(parts: seq<Status>) returns (i: nat)
    requires parts != [] && exists k | 0 <= k < |parts| :: parts[k].state != Healthy
    ensures i < |parts| && parts[i].state == Worst(parts) && parts[i].reason == WorstReason(parts) && Worst(parts) != Healthy
    ensures forall k | 0 <= k < |parts| :: Rank(parts[k].state) <= Rank(parts[i].state)
    ensures forall k | 0 <= k < i :: Rank(parts[k].state) < Rank(parts[i].state)
  {
    var n := |parts| - 1;
    var rest, last := parts[..n], parts[n];
    assert forall k | 0 <= k < n :: rest[k] == parts[k];
    if exists k | 0 <= k < n :: rest[k].state != Healthy {
      i := WorstIsWorst(rest);
      if Rank(last.state) > Rank(Worst(rest)) {
        i := n;
      }
    } else {
      AllHealthy(rest);
      i := n;
    }
  }

  lemma {:induction false} AllHealthy(parts: seq<Status>)
    requires forall k | 0 <= k < |parts| :: parts[k].state == Healthy
    ensures Worst(parts) == Healthy && WorstReason(parts) == "healthy"
  {
    if parts != [] {
      AllHealthy(parts[..|parts| - 1]);
    }
  }

  /** All evidence is what some part has. */
  lemma {:induction false} EvidenceIsUnion(parts: seq<Status>, x: string)
    ensures x in AllEvidence(parts) <==> exists k | 0 <= k < |parts| :: x in parts[k].evidence
  {
    if parts != [] {
      var n := |parts| - 1;
      EvidenceIsUnion(parts[..n], x);
      if k :| 0 <= k < n && x in parts[..n][k].evidence {
        assert x in parts[k].evidence;
      }
      if k :| 0 <= k < |parts| && x in parts[k].evidence {
        assert k < n ==> x in parts[..n][k].evidence;
      }
    }
  }

  /** The oldest observation is the least of those that parts in the given states have. */
  lemma {:induction false} OldestIsLeast(parts: seq<Status>, states: set<State>)
    ensures var o := Oldest(parts, states);
      && (o.Some? ==> exists k | 0 <= k < |parts| :: parts[k].state in states && parts[k].observed == o)
      && (forall k | 0 <= k < |parts| && parts[k].state in states && parts[k].observed.Some? :: o.Some? && o.value <= parts[k].observed.value)
  {
    if parts != [] {
      var n := |parts| - 1;
      var rest := parts[..n];
      OldestIsLeast(rest, states);
      assert forall k | 0 <= k < n :: rest[k] == parts[k];
      if k :| 0 <= k < n && rest[k].state in states && rest[k].observed == Oldest(rest, states) {
        assert parts[k].state in states && parts[k].observed == Oldest(rest, states);
      }
    }
  }
}
