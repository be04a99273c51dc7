/** The table that confirms a failure only by two distinct reports. */
module RuntimeConfirmation {

  const FRESHNESS := 180

  /** A component: one target of a forwarding listener, or any other named component. */
  datatype Key = Forward(node: int, member: string, target: nat) | Component(name: string)

  datatype Failure = Failure(node: int, sequence: int, count: nat, observed: int, identity: string)

  type Table = map<Key, Failure>

  /** The part of a node's report that the confirmation looks at; `identity` joins the
      report's identity, epoch and applied revision. */
  datatype Report = Report(node: int, sequence: int, observed: int, identity: string)

  predicate FreshAt(observed: int, at: int) {
    observed != 0 && 0 <= at - observed <= FRESHNESS
  }

  // ----- the operations ----------------------------------------------------------------

  /** The entry a negative report builds on: the stored one, unless the report starts anew. */
  function Base(t: Table, key: Key, r: Report, at: int): Failure {
    if key in t && t[key].identity == r.identity && FreshAt(t[key].observed, at) && r.sequence >= t[key].sequence
    then t[key]
    else Failure(r.node, 0, 0, 0, r.identity)
  }

  function Counted(f: Failure, r: Report): Failure {
    if r.sequence != f.sequence then f.(count := f.count + 1, sequence := r.sequence, observed := r.observed) else f
  }

  /** Record a negative report; the flag says whether the failure is confirmed. */
  function Negative(t: Table, key: Key, r: Report, at: int): (Table, bool) {
    if r.sequence <= 0 then (t - {key}, false)
    else
      var f := Counted(Base(t, key, r, at), r);
      (t[key := f], f.count >= 2)
  }

  function Clear(t: Table, key: Key): Table { t - {key} }

  function DropNode(t: Table, node: int): Table {
    map k | k in t && t[k].node != node :: t[k]
  }

  function Purge(t: Table, at: int): Table {
    map k | k in t && FreshAt(t[k].observed, at) :: t[k]
  }

  // ----- runs ----------------------------------------------------------------------------

  datatype Op =
    | NegativeOp(key: Key, report: Report, at: int)
    | ClearOp(keys: set<Key>)
    | DropOp(node: int)
    | PurgeOp(at: int)

  function Apply(t: Table, op: Op): Table {
    match op
    case NegativeOp(key, r, at) => Negative(t, key, r, at).0
    case ClearOp(keys) => t - keys
    case DropOp(node) => DropNode(t, node)
    case PurgeOp(at) => Purge(t, at)
  }

  function TableAt(run: seq<Op>, i: nat): Table
    requires i <= |run|
  {
    if i == 0 then map[] else Apply(TableAt(run, i - 1), run[i - 1])
  }

  /** Step `j` reports the component of `key` as down. */
  predicate ConfirmedAt(run: seq<Op>, j: nat, key: Key)
    requires j < |run|
  {
    run[j].NegativeOp? && run[j].key == key && Negative(TableAt(run, j), key, run[j].report, run[j].at).1
  }

  // ----- the same, told by the history alone ---------------------------------------------------

  /** Step `k` is a negative report of the component that counts at all. */
  predicate Negates(run: seq<Op>, k: nat, key: Key)
    requires k < |run|
  {
    run[k].NegativeOp? && run[k].key == key && run[k].report.sequence > 0
  }

  /** Of the negative reports from step `b` to before step `j`, the first one with the sequence of
      the last one: repetitions of a report do not renew it. */
  function InForce(run: seq<Op>, b: nat, j: nat, key: Key): (c: nat)
    requires b < j <= |run| && Negates(run, b, key)
    ensures b <= c < j && Negates(run, c, key)
  {
    if j == b + 1 then b
    else
      var c := InForce(run, b, j - 1, key);
      if Negates(run, j - 1, key) && run[j - 1].report.sequence != run[c].report.sequence then j - 1 else c
  }

  /** Step `k` ends the streak of failures begun at step `b`: it clears the component, drops the
      node, finds the report in force stale, or is a report without sequence, of another identity
      or from further back. */
  predicate Ends(run: seq<Op>, b: nat, k: nat, key: Key)
    requires b < k < |run| && Negates(run, b, key)
  {
    var r := run[InForce(run, b, k, key)].report;
    match run[k]
    case NegativeOp(o, s, at) =>
      o == key && (s.sequence <= 0 || s.identity != run[b].report.identity || !Recent(r.observed, at) || s.sequence < r.sequence)
    case ClearOp(keys) => key in keys
    case DropOp(node) => node == run[b].report.node
    case PurgeOp(at) => !Recent(r.observed, at)
  }

  /** Observed, and within the last three minutes. */
  predicate Recent(observed: int, at: int) { observed != 0 && at - 180 <= observed <= at }

  /** The streak of failures that began at step `b` has not ended before step `j`. */
  ghost predicate Streak(run: seq<Op>, b: nat, j: nat, key: Key)
    requires b < j <= |run|
    decreases b, 1
  {
    && Negates(run, b, key) && Anew(run, b, key)
    && forall k | b < k < j :: !Ends(run, b, k, key)
  }

  /** Whatever streak was on before step `b` ends with it. */
  ghost predicate Anew(run: seq<Op>, b: nat, key: Key)
    requires b < |run|
    decreases b, 0
  {
    forall a: nat | a < b && Streak(run, a, b, key) :: Ends(run, a, b, key)
  }

  lemma NoLaterStreak(run: seq<Op>, a: nat, b: nat, j: nat, key: Key)
    requires a < b < j <= |run| && Streak(run, a, j, key)
    ensures !Streak(run, b, j, key)
  {
    assert Streak(run, a, b, key);
  }

  lemma OneStreak(run: seq<Op>, a: nat, b: nat, j: nat, key: Key)
    requires a < j <= |run| && b < j && Streak(run, a, j, key) && Streak(run, b, j, key)
    ensures a == b
  {
    hide Streak;
    if a < b {
      NoLaterStreak(run, a, b, j, key);
    } else if b < a {
      NoLaterStreak(run, b, a, j, key);
    }
  }

  /** The entry of a streak: begun by its first report, renewed by the one in force, and counted
      twice as soon as a second sequence has come. */
  ghost predicate EntryOf(run: seq<Op>, b: nat, j: nat, key: Key, f: Failure)
    requires b < j <= |run| && Negates(run, b, key)
  {
    var r := run[InForce(run, b, j, key)].report;
    && f.identity == run[b].report.identity && f.node == run[b].report.node
    && f.sequence == r.sequence && f.observed == r.observed
    && f.sequence >= run[b].report.sequence && f.count >= 1
    && (f.count >= 2 <==> f.sequence > run[b].report.sequence)
  }

  ghost predicate Tells(run: seq<Op>, j: nat, key: Key)
    requires j <= |run|
  {
    && (key in TableAt(run, j) <==> exists b: nat | b < j :: Streak(run, b, j, key))
    && forall b: nat | b < j && Streak(run, b, j, key) :: EntryOf(run, b, j, key, TableAt(run, j)[key])
  }

  /** One step of a streak that goes on. */
  lemma StreakGoesOn(run: seq<Op>, b: nat, j: nat, key: Key)
    requires b < j < |run| && Negates(run, b, key) && key in TableAt(run, j) && EntryOf(run, b, j, key, TableAt(run, j)[key])
    ensures Ends(run, b, j, key) ==>
      key in TableAt(run, j + 1) ==> Negates(run, j, key) && EntryOf(run, j, j + 1, key, TableAt(run, j + 1)[key])
    ensures Ends(run, b, j, key) && Negates(run, j, key) ==> key in TableAt(run, j + 1)
    ensures !Ends(run, b, j, key) ==> key in TableAt(run, j + 1) && EntryOf(run, b, j + 1, key, TableAt(run, j + 1)[key])
  {
    var t, c := TableAt(run, j), InForce(run, b, j, key);
    assert TableAt(run, j + 1) == Apply(t, run[j]);
    hide TableAt, InForce;
    assert InForce(run, b, j + 1, key) == if Negates(run, j, key) && run[j].report.sequence != run[c].report.sequence then j else c by {
      InForceOneMore(run, b, j, key);
    }
    if Negates(run, j, key) {
      InForceFirst(run, j, key);
    }
  }

  lemma InForceOneMore(run: seq<Op>, b: nat, j: nat, key: Key)
    requires b < j < |run| && Negates(run, b, key)
    ensures var c := InForce(run, b, j, key);
      InForce(run, b, j + 1, key) == if Negates(run, j, key) && run[j].report.sequence != run[c].report.sequence then j else c
  {
  }

  lemma InForceFirst(run: seq<Op>, b: nat, key: Key)
    requires b < |run| && Negates(run, b, key)
    ensures InForce(run, b, b + 1, key) == b
  {
  }

  /** A step with no entry to go by. */
  lemma StreakBegins(run: seq<Op>, j: nat, key: Key)
    requires j < |run| && key !in TableAt(run, j)
    ensures key in TableAt(run, j + 1) <==> Negates(run, j, key)
    ensures Negates(run, j, key) ==> EntryOf(run, j, j + 1, key, TableAt(run, j + 1)[key])
  {
    assert TableAt(run, j + 1) == Apply(TableAt(run, j), run[j]);
    if Negates(run, j, key) {
      InForceFirst(run, j, key);
    }
  }

  /** A streak before step `j + 1` is the one before step `j`, or begins now. */
  lemma StreakBefore(run: seq<Op>, b: nat, j: nat, key: Key)
    requires b <= j < |run| && Streak(run, b, j + 1, key)
    ensures b < j ==> Streak(run, b, j, key) && !Ends(run, b, j, key)
    ensures b == j ==> Negates(run, j, key) && Anew(run, j, key)
  {
  }

  lemma StepTells(run: seq<Op>, j: nat, key: Key)
    requires j < |run| && Tells(run, j, key)
    ensures Tells(run, j + 1, key)
  {
    hide TableAt, EntryOf, Ends, Streak, Anew, Negates;
    if key in TableAt(run, j) {
      var b: nat :| b < j && Streak(run, b, j, key);
      StreakIs(run, b, j, key);
      StreakGoesOn(run, b, j, key);
      NextStreak(run, b, j, j + 1, key);
      if !Ends(run, b, j, key) {
        assert Streak(run, b, j + 1, key);
      } else if Negates(run, j, key) {
        assert Streak(run, j, j + 1, key);
      }
    } else {
      StreakBegins(run, j, key);
      NewStreak(run, j, j + 1, key);
      if Negates(run, j, key) {
        assert Streak(run, j, j + 1, key);
      }
    }
  }

  lemma StreakIs(run: seq<Op>, b: nat, j: nat, key: Key)
    requires b < j <= |run| && Streak(run, b, j, key)
    ensures Negates(run, b, key)
  {
  }

  /** The streaks before the next step when one was on before step `j`. */
  lemma NextStreak(run: seq<Op>, b: nat, j: nat, next: nat, key: Key)
    requires b < j < next == j + 1 <= |run| && Streak(run, b, j, key) && Negates(run, b, key)
    ensures forall a: nat | a < next ::
      Streak(run, a, next, key) <==> if Ends(run, b, j, key) then a == j && Negates(run, j, key) else a == b
  {
    forall a: nat | a < next
      ensures Streak(run, a, next, key) <==> if Ends(run, b, j, key) then a == j && Negates(run, j, key) else a == b
    {
      if Streak(run, a, next, key) {
        StreakBefore(run, a, j, key);
        if a < j {
          OneStreak(run, a, b, j, key);
        }
      }
      if a == j && Ends(run, b, j, key) {
        AnewAfter(run, b, j, key);
      }
    }
  }

  lemma AnewAfter(run: seq<Op>, b: nat, j: nat, key: Key)
    requires b < j < |run| && Streak(run, b, j, key) && Negates(run, b, key) && Ends(run, b, j, key)
    ensures Anew(run, j, key)
  {
    forall a: nat | a < j && Streak(run, a, j, key)
      ensures Negates(run, a, key) && Ends(run, a, j, key)
    {
      OneStreak(run, a, b, j, key);
    }
  }

  lemma NewStreak(run: seq<Op>, j: nat, next: nat, key: Key)
    requires j < next == j + 1 <= |run| && forall b: nat | b < j :: !Streak(run, b, j, key)
    ensures forall a: nat | a < next :: Streak(run, a, next, key) <==> a == j && Negates(run, j, key)
  {
    forall a: nat | a < next
      ensures Streak(run, a, next, key) <==> a == j && Negates(run, j, key)
    {
      if Streak(run, a, next, key) {
        StreakBefore(run, a, j, key);
      } else if a == j {
        assert Anew(run, j, key);
      }
    }
  }

  /** In every run the table has an entry exactly for a streak that has not ended, and the entry
      says what the reports of that streak say. */
  lemma {:induction false} TableTellsHistory(run: seq<Op>, j: nat, key: Key)
    requires j <= |run|
    ensures Tells(run, j, key)
  {
    hide Tells;
    if j == 0 {
      NothingToTell(run, key);
    } else {
      TableTellsHistory(run, j - 1, key);
      StepTells(run, j - 1, key);
    }
  }

  lemma NothingToTell(run: seq<Op>, key: Key)
    ensures Tells(run, 0, key)
  {
  }

  /** A component is reported down exactly when an older negative report began a streak that
      has not ended: no recovery, clearing, staleness or setback lies between the two. */
  lemma ConfirmedByTwoReports(run: seq<Op>, j: nat, key: Key)
    requires j < |run| && run[j].NegativeOp? && run[j].key == key
    ensures ConfirmedAt(run, j, key) <==>
      exists b: nat | b < j ::
        Streak(run, b, j + 1, key) && Negates(run, b, key) && run[b].report.sequence < run[j].report.sequence
  {
    hide Streak, TableAt;
    TableTellsHistory(run, j + 1, key);
    AfterNegative(run, j, key);
    if ConfirmedAt(run, j, key) {
      var b: nat :| b < j + 1 && Streak(run, b, j + 1, key);
      StreakIs(run, b, j + 1, key);
      assert b != j;
    }
  }

  lemma AfterNegative(run: seq<Op>, j: nat, key: Key)
    requires j < |run| && run[j].NegativeOp? && run[j].key == key
    ensures ConfirmedAt(run, j, key) <==> key in TableAt(run, j + 1) && TableAt(run, j + 1)[key].count >= 2
    ensures key in TableAt(run, j + 1) <==> run[j].report.sequence > 0
    ensures key in TableAt(run, j + 1) ==> TableAt(run, j + 1)[key].sequence == run[j].report.sequence
  {
    assert TableAt(run, j + 1) == Apply(TableAt(run, j), run[j]);
  }

  /** Reading the same report again, any number of times and with any purges, losses or
      recoveries in between, never turns an unconfirmed failure into a confirmed one. */
  lemma SameReportNeverEscalates(run: seq<Op>, i: nat, j: nat, key: Key)
    requires i < j < |run| && run[i].NegativeOp? && run[i].key == key && !ConfirmedAt(run, i, key)
    requires forall k: nat | i < k <= j && run[k].NegativeOp? && run[k].key == key :: run[k].report == run[i].report
    ensures !ConfirmedAt(run, j, key)
  {
    NeverTwice(run, i, j, key);
  }

  lemma {:induction false} NeverTwice(run: seq<Op>, i: nat, j: nat, key: Key)
    requires i < j < |run| && run[i].NegativeOp? && run[i].key == key && !ConfirmedAt(run, i, key)
    requires forall k: nat | i < k < j && run[k].NegativeOp? && run[k].key == key :: run[k].report == run[i].report
    ensures key in TableAt(run, j) ==> TableAt(run, j)[key].count <= 1 && TableAt(run, j)[key].sequence == run[i].report.sequence
    decreases j
  {
    if j == i + 1 {
      assert TableAt(run, j) == Apply(TableAt(run, i), run[i]);
    } else {
      NeverTwice(run, i, j - 1, key);
      assert TableAt(run, j) == Apply(TableAt(run, j - 1), run[j - 1]);
    }
  }
}
