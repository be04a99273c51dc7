/** The sustained-failure window of the DNS health check. */
module DnsHealth {
  import opened Collections

  const INTERVAL := 300
  const COOLDOWN := 30

  datatype Family = Family(kind: string, status: string)

  datatype Target = Target(key: string, status: string, families: seq<Family>)

  /** A saved snapshot.  The failure key stands for the failures it digests: empty when there are
      none. */
  datatype Snapshot = Snapshot(checkedAt: int, fingerprint: string, failureKey: seq<string>, count: nat, since: int, lastAt: int)

  // ----- the failures of a check --------------------------------------------------------------

  predicate Failing(status: string) { status in {"mismatch", "missing", "conflict", "invalid"} }

  function FamilyFailures(key: string, fs: seq<Family>): seq<string> {
    if fs == [] then []
    else
      var f := fs[|fs| - 1];
      FamilyFailures(key, fs[..|fs| - 1]) + if Failing(f.status) then [key + ":" + f.kind + ":" + f.status] else []
  }

  function TargetFailures(t: Target): seq<string> {
    if !Failing(t.status) then []
    else if t.families == [] then [t.key + ":" + t.status]
    else FamilyFailures(t.key, t.families)
  }

  function Failures(ts: seq<Target>): seq<string> {
    if ts == [] then [] else Failures(ts[..|ts| - 1]) + TargetFailures(ts[|ts| - 1])
  }

  predicate AllOk(ts: seq<Target>) { forall i | 0 <= i < |ts| :: ts[i].status == "ok" }

  method CollectTarget(t: Target) returns (failures: seq<string>)
    ensures failures == TargetFailures(t)
  {
    failures := [];
    if Failing(t.status) {
      for f := 0 to |t.families|
        invariant failures == FamilyFailures(t.key, t.families[..f])
      {
        assert t.families[..f + 1][..f] == t.families[..f];
        if Failing(t.families[f].status) {
          failures := failures + [t.key + ":" + t.families[f].kind + ":" + t.families[f].status];
        }
      }
      assert t.families[..|t.families|] == t.families;
      if |t.families| == 0 {
        failures := failures + [t.key + ":" + t.status];
      }
    }
  }

  lemma OkHasNone(t: Target)
    ensures t.status == "ok" ==> TargetFailures(t) == []
  {
  }

  method Collect(ts: seq<Target>) returns (failures: seq<string>, allOk: bool)
    ensures failures == Failures(ts) && allOk == AllOk(ts)
    ensures allOk ==> failures == []
  {
    hide TargetFailures;
    failures, allOk := [], true;
    for i := 0 to |ts|
      invariant failures == Failures(ts[..i]) && allOk == AllOk(ts[..i])
      invariant allOk ==> failures == []
    {
      assert ts[..i + 1][..i] == ts[..i];
      var more := CollectTarget(ts[i]);
      OkHasNone(ts[i]);
      failures := failures + more;
      if ts[i].status != "ok" {
        allOk := false;
      }
    }
    assert ts[..|ts|] == ts;
  }

  // ----- the window -----------------------------------------------------------------------------

  /** The same fault of the same target configuration, seen again in time. */
  predicate Continues(last: Option<Snapshot>, fingerprint: string, failures: seq<string>, now: int) {
    && last.Some? && last.value.fingerprint == fingerprint && last.value.failureKey == failures
    && 0 <= now - last.value.checkedAt <= 3 * INTERVAL
  }

  function Next(last: Option<Snapshot>, fingerprint: string, failures: seq<string>, now: int): Snapshot {
    if failures == [] then Snapshot(now, fingerprint, [], 0, 0, 0)
    else if Continues(last, fingerprint, failures, now) then
      var o := last.value;
      if now - o.lastAt >= INTERVAL then Snapshot(now, fingerprint, failures, o.count + 1, o.since, now)
      else Snapshot(now, fingerprint, failures, o.count, o.since, o.lastAt)
    else Snapshot(now, fingerprint, failures, 1, now, now)
  }

  /** A check within thirty seconds of the last one returns that one and saves nothing. */
  predicate Cooling(last: Option<Snapshot>, fingerprint: string, early: int) {
    last.Some? && last.value.fingerprint == fingerprint && 0 <= early - last.value.checkedAt < COOLDOWN
  }

  predicate Alerts(s: Snapshot, now: int) { s.count >= 3 && now - s.since >= 2 * INTERVAL }

  class HealthStore {
    var saved: Option<Snapshot>

    constructor ()
      ensures saved == None
    {
      saved := None;
    }

    /** One check: the targets as resolved, the clock before and after, and whether the target
        configuration changed meanwhile. */
    method Check(ts: seq<Target>, fingerprint: string, early: int, now: int, changed: bool) returns (alert: bool)
      modifies this
      ensures saved == if Cooling(old(saved), fingerprint, early) || changed then old(saved)
                       else Some(Next(old(saved), fingerprint, Failures(ts), now))
      ensures alert <==> !Cooling(old(saved), fingerprint, early) && !changed && |ts| > 0
                         && !(old(saved).Some? && old(saved).value.fingerprint != fingerprint)
                         && Alerts(Next(old(saved), fingerprint, Failures(ts), now), now)
    {
      alert := false;
      if Cooling(saved, fingerprint, early) {
        return;
      }
      var failures, allOk := Collect(ts);
      var h := Snapshot(now, fingerprint, [], 0, 0, 0);
      if |failures| > 0 {
        h := h.(failureKey := failures, count := 1, since := now, lastAt := now);
        if saved.Some? && saved.value.fingerprint == fingerprint && saved.value.failureKey == failures
           && now >= saved.value.checkedAt && now - saved.value.checkedAt <= 3 * INTERVAL {
          h := h.(count := saved.value.count, since := saved.value.since, lastAt := saved.value.lastAt);
          if now - saved.value.lastAt >= INTERVAL {
            h := h.(count := h.count + 1, lastAt := now);
          }
        }
      }
      if changed {
        return;
      }
      var renamed := saved.Some? && saved.value.fingerprint != fingerprint;
      saved := Some(h);
      alert := |ts| > 0 && !renamed && h.count >= 3 && now - h.since >= 2 * INTERVAL;
    }
  }

  // ----- runs of saved checks ------------------------------------------------------------------------

  datatype Saved = Saved(fingerprint: string, failures: seq<string>, now: int)

  function After(run: seq<Saved>, i: nat): Option<Snapshot>
    requires i <= |run|
  {
    if i == 0 then None else Some(Next(After(run, i - 1), run[i - 1].fingerprint, run[i - 1].failures, run[i - 1].now))
  }

  /** The counters of a snapshot fit together. */
  ghost predicate SnapshotOk(s: Snapshot) {
    if s.failureKey == [] then s.count == 0
    else s.count >= 1 && s.since <= s.lastAt <= s.checkedAt && s.lastAt - s.since >= 300 * (s.count - 1)
  }

  lemma {:induction false} CountersFit(run: seq<Saved>, i: nat)
    requires 0 < i <= |run|
    ensures After(run, i).Some? && SnapshotOk(After(run, i).value)
  {
    if i > 1 {
      CountersFit(run, i - 1);
    }
  }

  /** From check `j` to check `i` every saved check found the same failures of the same targets,
      at most fifteen minutes apart. */
  ghost predicate SameFault(run: seq<Saved>, j: nat, i: nat)
    requires j <= i < |run|
  {
    && run[i].failures != []
    && (forall k | j <= k <= i :: run[k].failures == run[i].failures && run[k].fingerprint == run[i].fingerprint)
    && (forall k | j < k <= i :: 0 <= run[k].now - run[k - 1].now <= 900)
  }

  /** The window recorded in a snapshot is real. */
  lemma {:induction false} WindowIsReal(run: seq<Saved>, i: nat)
    requires i < |run| && run[i].failures != []
    ensures exists j: nat | j <= i :: SameFault(run, j, i) && After(run, i + 1).value.since == run[j].now
  {
    hide SameFault, Next, Continues;
    SinceWhen(run, i);
    if Continues(After(run, i), run[i].fingerprint, run[i].failures, run[i].now) {
      Continued(run, i);
      WindowIsReal(run, i - 1);
      var j: nat :| j <= i - 1 && SameFault(run, j, i - 1) && After(run, i).value.since == run[j].now;
      SameFaultOneMore(run, j, i);
    } else {
      SameFaultNow(run, i);
    }
  }

  lemma SinceWhen(run: seq<Saved>, i: nat)
    requires i < |run| && run[i].failures != []
    ensures After(run, i + 1).Some?
    ensures After(run, i + 1).value.since ==
      if Continues(After(run, i), run[i].fingerprint, run[i].failures, run[i].now) then After(run, i).value.since else run[i].now
  {
  }

  /** A fault that continues was found by the check before. */
  lemma Continued(run: seq<Saved>, i: nat)
    requires i < |run| && run[i].failures != []
    requires Continues(After(run, i), run[i].fingerprint, run[i].failures, run[i].now)
    ensures i > 0 && run[i - 1].failures == run[i].failures && run[i - 1].fingerprint == run[i].fingerprint
    ensures 0 <= run[i].now - run[i - 1].now <= 900
  {
  }

  lemma SameFaultOneMore(run: seq<Saved>, j: nat, i: nat)
    requires j < i < |run| && SameFault(run, j, i - 1)
    requires run[i - 1].failures == run[i].failures && run[i - 1].fingerprint == run[i].fingerprint
    requires 0 <= run[i].now - run[i - 1].now <= 900
    ensures SameFault(run, j, i)
  {
  }

  lemma SameFaultNow(run: seq<Saved>, i: nat)
    requires i < |run| && run[i].failures != []
    ensures SameFault(run, i, i)
  {
  }

  /** An alert means the same failures of the same targets in every saved check over at least ten
      minutes, with no gap over fifteen; three counted failures alone already prove the ten minutes. */
  lemma AlertMeansSustained(run: seq<Saved>, i: nat)
    requires i < |run| && After(run, i + 1).value.count >= 3
    ensures Alerts(After(run, i + 1).value, run[i].now)
    ensures exists j: nat | j <= i :: SameFault(run, j, i) && run[i].now - run[j].now >= 600
  {
    CountersFit(run, i + 1);
    WindowIsReal(run, i);
  }

  /** Conversely, three checks in a row with the same fault, each five to fifteen minutes after the
      one before, raise the alert. */
  lemma ThreeFailuresAlert(run: seq<Saved>, i: nat)
    requires 2 <= i < |run| && SameFault(run, i - 2, i)
    requires run[i].now - run[i - 1].now >= 300 && run[i - 1].now - run[i - 2].now >= 300
    ensures Alerts(After(run, i + 1).value, run[i].now)
  {
    CountersFit(run, i - 1);
    CountersFit(run, i);
    CountersFit(run, i + 1);
    assert run[i - 1].failures == run[i - 2].failures == run[i].failures;
    assert run[i - 1].fingerprint == run[i - 2].fingerprint == run[i].fingerprint;
    assert After(run, i - 1).value.count >= 1 by {
      assert After(run, i - 1).value.failureKey == run[i - 2].failures;
    }
  }

  // ----- what counts as a failure ---------------------------------------------------------------

  /** The line a failing family, or a failing target without families, is reported by. */
  predicate ReportedBy(x: string, t: Target) {
    && t.status in {"mismatch", "missing", "conflict", "invalid"}
    && if t.families == [] then x == t.key + ":" + t.status
       else exists i | 0 <= i < |t.families| ::
         t.families[i].status in {"mismatch", "missing", "conflict", "invalid"} && x == t.key + ":" + t.families[i].kind + ":" + t.families[i].status
  }

  lemma {:induction false} FamilyFailuresExactly(key: string, fs: seq<Family>, x: string)
    ensures x in FamilyFailures(key, fs) <==>
      exists i | 0 <= i < |fs| :: fs[i].status in {"mismatch", "missing", "conflict", "invalid"} && x == key + ":" + fs[i].kind + ":" + fs[i].status
  {
    if fs != [] {
      var n := |fs| - 1;
      FamilyFailuresExactly(key, fs[..n], x);
      assert forall i | 0 <= i < n :: fs[..n][i] == fs[i];
    }
  }

  /** The failures of a check are exactly those its targets are reported by. */
  lemma {:induction false} FailuresExactly(ts: seq<Target>, x: string)
    ensures x in Failures(ts) <==> exists i | 0 <= i < |ts| :: ReportedBy(x, ts[i])
  {
    if ts != [] {
      var n := |ts| - 1;
      FailuresExactly(ts[..n], x);
      FamilyFailuresExactly(ts[n].key, ts[n].families, x);
      assert forall i | 0 <= i < n :: ts[..n][i] == ts[i];
    }
  }
}
