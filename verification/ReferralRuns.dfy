/** Invitations as the panel runs them: every read of the walk and the update at its end is a
    statement of its own, and statements of different calls come in any order. */
module ReferralRuns {
  import opened Collections
  import opened Referrals

  /** A call under way: where its walk stands, how many levels it has read, and whether it has
      come to its end. */
  datatype Call = Call(user: int, inviter: int, current: int, read: nat, ready: bool)

  datatype State = State(users: Users, calls: map<int, Call>)

  datatype Event =
    | Register(id: int, referrer: Option<int>)
    | Begin(call: int, user: int, inviter: int)
    | Look(call: int)
    | Record(call: int)

  const INITIAL := State(map[], map[])

  /** One read of the walk; `None` is the refusal of a chain that leads back. */
  function Read(users: Users, c: Call): Option<Call> {
    if c.current !in users || users[c.current].None? then Some(c.(ready := true))
    else if users[c.current].value == c.user then None
    else Some(c.(current := users[c.current].value, read := c.read + 1, ready := c.read + 1 >= MAX_WALK))
  }

  /** The update, which touches only a user without an inviter. */
  function Update(users: Users, c: Call): Users {
    if c.user in users && users[c.user].None? then users[c.user := Some(c.inviter)] else users
  }

  /** One statement; one that is not enabled changes nothing. */
  function Step(s: State, e: Event): State {
    match e
    case Register(id, referrer) =>
      if id in s.users || (referrer.Some? && referrer.value !in s.users) then s else s.(users := s.users[id := referrer])
    case Begin(call, user, inviter) =>
      if call in s.calls || inviter !in s.users || user == inviter then s
      else s.(calls := s.calls[call := Call(user, inviter, inviter, 0, false)])
    case Look(call) =>
      if call !in s.calls || s.calls[call].ready then s
      else
        var next := Read(s.users, s.calls[call]);
        s.(calls := if next.Some? then s.calls[call := next.value] else s.calls - {call})
    case Record(call) =>
      if call !in s.calls || !s.calls[call].ready then s
      else s.(users := Update(s.users, s.calls[call]), calls := s.calls - {call})
  }

  function At(run: seq<Event>, i: nat): State
    requires i <= |run|
  {
    if i == 0 then INITIAL else Step(At(run, i - 1), run[i - 1])
  }

  // ----- what every interleaving keeps ----------------------------------------------------------------

  ghost predicate StateOk(s: State) {
    && Known(s.users)
    && forall c | c in s.calls :: s.calls[c].inviter in s.users && s.calls[c].user != s.calls[c].inviter
  }

  lemma {:induction false} RunOk(run: seq<Event>, i: nat)
    requires i <= |run|
    ensures StateOk(At(run, i))
  {
    if i > 0 {
      RunOk(run, i - 1);
    }
  }

  /** In every interleaving a recorded inviter is never replaced. */
  lemma {:induction false} InvitersAreKept(run: seq<Event>, i: nat, j: nat, u: int)
    requires i <= j <= |run| && u in At(run, i).users && At(run, i).users[u].Some?
    ensures u in At(run, j).users && At(run, j).users[u] == At(run, i).users[u]
    decreases j
  {
    if i < j {
      InvitersAreKept(run, i, j - 1, u);
    }
  }

  // ----- two calls at once ------------------------------------------------------------------------------

  const MUTUAL := [Register(1, None), Register(2, None), Begin(0, 1, 2), Begin(7, 2, 1),
                   Look(0), Look(7), Record(0), Record(7)]

  const NOBODY: Users := map[1 := None, 2 := None]
  const FIRST := Call(1, 2, 2, 0, false)
  const SECOND := Call(2, 1, 1, 0, false)

  lemma BothBegin()
    ensures At(MUTUAL, 4) == State(NOBODY, map[0 := FIRST, 7 := SECOND])
  {
    assert At(MUTUAL, 1).users == map[1 := None];
    assert At(MUTUAL, 2) == State(NOBODY, map[]);
    assert At(MUTUAL, 3) == State(NOBODY, map[0 := FIRST]);
  }

  lemma BothWalk()
    ensures At(MUTUAL, 6) == State(NOBODY, map[0 := FIRST.(ready := true), 7 := SECOND.(ready := true)])
  {
    BothBegin();
    assert At(MUTUAL, 5) == Step(At(MUTUAL, 4), Look(0));
    assert At(MUTUAL, 5) == State(NOBODY, map[0 := FIRST.(ready := true), 7 := SECOND]);
    assert At(MUTUAL, 6) == Step(At(MUTUAL, 5), Look(7));
  }

  /** Two users without inviters who record each other at the same time both succeed, and each is
      then their own ancestor two levels up. */
  lemma MutualInvitation()
    ensures At(MUTUAL, 8).users == map[1 := Some(2), 2 := Some(1)]
    ensures Up(At(MUTUAL, 8).users, 1, 2) == Some(1) && Up(At(MUTUAL, 8).users, 2, 2) == Some(2)
  {
    BothWalk();
    assert At(MUTUAL, 7) == Step(At(MUTUAL, 6), Record(0));
    assert At(MUTUAL, 7) == State(map[1 := Some(2), 2 := None], map[7 := SECOND.(ready := true)]);
    assert At(MUTUAL, 8) == Step(At(MUTUAL, 7), Record(7));
    var users := At(MUTUAL, 8).users;
    assert Up(users, 1, 2) == Up(users, 2, 1) && Up(users, 2, 2) == Up(users, 1, 1);
  }

  // ----- exactly when a record closes a cycle -------------------------------------------------------------

  /** Step `j` writes an inviter. */
  predicate Records(run: seq<Event>, j: nat)
    requires j < |run|
  {
    run[j].Record? && At(run, j + 1).users != At(run, j).users
  }

  /** The call `c` begins at step `i` and is under way from then to step `j`. */
  ghost predicate UnderWay(run: seq<Event>, i: nat, j: nat, c: int)
    requires i < j <= |run|
  {
    && run[i].Begin? && run[i].call == c && c !in At(run, i).calls
    && forall k | i < k <= j :: c in At(run, k).calls
  }

  ghost predicate Grown(m: Users, n: Users) { forall u | u in m :: u in n && n[u] == m[u] }

  /** Users who register later are on no earlier chain. */
  lemma {:induction false} UpInGrown(m: Users, n: Users, id: int, k: nat)
    requires Known(m) && Grown(m, n) && id in m
    ensures Up(n, id, k) == Up(m, id, k)
    decreases k
  {
    if k > 0 && m[id].Some? {
      UpInGrown(m, n, m[id].value, k - 1);
    }
  }

  /** What a walk has found so far, had it read `m` throughout. */
  ghost predicate Walked(m: Users, c: Call) {
    && c.inviter in m && c.current in m && c.read <= MAX_WALK
    && Up(m, c.inviter, c.read) == Some(c.current)
    && (forall k: nat | 1 <= k <= c.read :: Up(m, c.inviter, k) != Some(c.user))
    && (c.ready ==> c.read == MAX_WALK || Up(m, c.inviter, c.read + 1) == None)
    && (!c.ready ==> c.read < MAX_WALK)
  }

  lemma WalkedOn(m: Users, n: Users, c: Call)
    requires Known(m) && Grown(m, n) && Walked(m, c) && !c.ready && Read(n, c).Some?
    ensures Walked(m, Read(n, c).value)
  {
    UpOnce(m, c.inviter, c.read);
    var d := Read(n, c).value;
    forall k: nat | 1 <= k <= d.read
      ensures Up(m, d.inviter, k) != Some(d.user)
    {
      if k == c.read + 1 {
        assert Up(m, c.inviter, k) == Some(d.current);
      }
    }
  }

  lemma WalkedToTheEnd(m: Users, c: Call)
    requires Walked(m, c) && c.ready
    ensures !LeadsBack(m, c.inviter, c.user, MAX_WALK)
  {
    forall k: nat | 1 <= k <= MAX_WALK
      ensures Up(m, c.inviter, k) != Some(c.user)
    {
      if k > c.read {
        UpSum(m, c.inviter, c.read + 1, k - c.read - 1);
      }
    }
  }

  /** As long as no other call records, the walk reads what was there when it began. */
  lemma {:induction false} WalkIsOfTheBeginning(run: seq<Event>, i: nat, j: nat, c: int)
    requires i < j <= |run| && UnderWay(run, i, j, c)
    requires forall k: nat | i < k < j :: !Records(run, k)
    ensures Grown(At(run, i).users, At(run, j).users) && Walked(At(run, i).users, At(run, j).calls[c])
    ensures At(run, j).calls[c].user == run[i].user && At(run, j).calls[c].inviter == run[i].inviter
    decreases j
  {
    hide Walked;
    RunOk(run, i);
    if j == i + 1 {
      FirstWalked(run, i, c);
    } else {
      assert UnderWay(run, i, j - 1, c);
      WalkIsOfTheBeginning(run, i, j - 1, c);
      StepGrows(run, j - 1);
      var m, s, e := At(run, i).users, At(run, j - 1), run[j - 1];
      if e.Look? && e.call == c && !s.calls[c].ready {
        WalkedOn(m, s.users, s.calls[c]);
      }
    }
  }

  lemma FirstWalked(run: seq<Event>, i: nat, c: int)
    requires i < |run| && UnderWay(run, i, i + 1, c)
    ensures At(run, i + 1).users == At(run, i).users && Walked(At(run, i).users, At(run, i + 1).calls[c])
    ensures At(run, i + 1).calls[c].user == run[i].user && At(run, i + 1).calls[c].inviter == run[i].inviter
  {
    assert At(run, i + 1) == Step(At(run, i), run[i]);
    assert c in At(run, i + 1).calls;
  }

  lemma StepGrows(run: seq<Event>, k: nat)
    requires k < |run| && !Records(run, k)
    ensures Grown(At(run, k).users, At(run, k + 1).users)
  {
  }

  /** A record closes a short cycle only if another call recorded while this one was under way. */
  lemma OverlapIsNeeded(run: seq<Event>, i: nat, j: nat, c: int)
    requires i < j < |run| && UnderWay(run, i, j, c) && run[j] == Record(c) && At(run, j).calls[c].ready
    requires LeadsBack(At(run, j).users, At(run, j).calls[c].inviter, At(run, j).calls[c].user, 64)
    ensures exists k: nat | i < k < j :: Records(run, k)
  {
    if forall k: nat | i < k < j :: !Records(run, k) {
      var m, n, d := At(run, i).users, At(run, j).users, At(run, j).calls[c];
      WalkIsOfTheBeginning(run, i, j, c);
      WalkedToTheEnd(m, d);
      RunOk(run, i);
      forall k: nat
        ensures Up(n, d.inviter, k) == Up(m, d.inviter, k)
      {
        UpInGrown(m, n, d.inviter, k);
      }
    }
  }

  /** The exact account of one write: it closes a short cycle if and only if the inviter's chain
      leads back to the user at that moment, whatever the walk saw. */
  lemma RecordClosesCycle(run: seq<Event>, j: nat)
    requires j < |run| && Records(run, j) && NoShortCycle(At(run, j).users)
    ensures var d := At(run, j).calls[run[j].call];
      NoShortCycle(At(run, j + 1).users) <==> !LeadsBack(At(run, j).users, d.inviter, d.user, 64)
  {
    hide NoShortCycle, LeadsBack;
    RunOk(run, j);
    var d := At(run, j).calls[run[j].call];
    assert At(run, j + 1) == Step(At(run, j), run[j]);
    RecordClosesExactly(At(run, j).users, d.user, d.inviter);
  }

  // ----- calls one after the other --------------------------------------------------------------------------

  /** Every call that is under way began at some step. */
  lemma {:induction false} HasBegun(run: seq<Event>, j: nat, c: int) returns (i: nat)
    requires j <= |run| && c in At(run, j).calls
    ensures i < j && UnderWay(run, i, j, c)
  {
    if c in At(run, j - 1).calls {
      i := HasBegun(run, j - 1, c);
    } else {
      i := j - 1;
    }
  }

  /** No call records while another one that goes on to record is under way. */
  ghost predicate Serial(run: seq<Event>) {
    forall i: nat, j: nat, k: nat | i < k < j < |run| && Records(run, j) && UnderWay(run, i, j, run[j].call) :: !Records(run, k)
  }

  /** In every run whose recording calls do not overlap, no user is their own ancestor within
      sixty-five levels. */
  lemma {:induction false} SerialRunsHaveNoShortCycle(run: seq<Event>, i: nat)
    requires i <= |run| && Serial(run)
    ensures NoShortCycle(At(run, i).users)
  {
    hide NoShortCycle, LeadsBack, UnderWay;
    if i == 0 {
      NobodyInvited();
    } else {
      var j := i - 1;
      SerialRunsHaveNoShortCycle(run, j);
      RunOk(run, j);
      if Records(run, j) {
        RecordClosesCycle(run, j);
        var d := At(run, j).calls[run[j].call];
        if LeadsBack(At(run, j).users, d.inviter, d.user, MAX_WALK) {
          var b := HasBegun(run, j, run[j].call);
          OverlapIsNeeded(run, b, j, run[j].call);
        }
      } else if run[j].Register? && At(run, i).users != At(run, j).users {
        CreateKeeps(At(run, j).users, run[j].id, run[j].referrer);
      }
    }
  }

  lemma NobodyInvited()
    ensures NoShortCycle(map[])
  {
    assert forall u, k: nat | 1 <= k <= MAX_WALK + 1 :: Up(map[], u, k) == None;
  }

  // ----- the longest chain the walk can see -------------------------------------------------------------------

  const LONG := 66

  /** Users 0, 1, 2, ... each invited by the next, the last by nobody; only those from `from` on. */
  function Ladder(from: int): Users { map i | from <= i < LONG :: Rung(i) }

  function Rung(i: int): Option<int> { if i + 1 < LONG then Some(i + 1) else None }

  /** Sixty-six users register, the inviter before the invited; then the first of them records the
      last as inviter, with a walk of sixty-four reads. */
  function Climb(): (run: seq<Event>)
    ensures |run| == 2 * LONG
  {
    seq(2 * LONG, k requires 0 <= k < 2 * LONG =>
      if k < LONG then Register(LONG - 1 - k, Rung(LONG - 1 - k))
      else if k == LONG then Begin(0, LONG - 1, 0)
      else if k < 2 * LONG - 1 then Look(0)
      else Record(0))
  }

  lemma OneRegistration(i: nat)
    requires 1 <= i <= LONG
    ensures Step(State(Ladder(LONG - i + 1), map[]), Register(LONG - i, Rung(LONG - i))) == State(Ladder(LONG - i), map[])
  {
    assert Ladder(LONG - i) == Ladder(LONG - i + 1)[LONG - i := Rung(LONG - i)];
  }

  lemma {:induction false} ClimbRegisters(i: nat)
    requires i <= LONG
    ensures At(Climb(), i) == State(Ladder(LONG - i), map[])
  {
    hide Step, Rung;
    if i == 0 {
      assert Ladder(LONG) == map[];
    } else {
      hide Ladder;
      ClimbRegisters(i - 1);
      assert Climb()[i - 1] == Register(LONG - i, Rung(LONG - i));
      OneRegistration(i);
    }
  }

  lemma OneLook(i: nat)
    requires 1 <= i <= MAX_WALK
    ensures var before, after := Call(LONG - 1, 0, i - 1, i - 1, false), Call(LONG - 1, 0, i, i, i == MAX_WALK);
      Step(State(Ladder(0), map[0 := before]), Look(0)) == State(Ladder(0), map[0 := after])
  {
    var before, after := Call(LONG - 1, 0, i - 1, i - 1, false), Call(LONG - 1, 0, i, i, i == MAX_WALK);
    assert Ladder(0)[i - 1] == Some(i);
    assert Read(Ladder(0), before) == Some(after);
    assert map[0 := before][0 := after] == map[0 := after];
  }

  lemma {:induction false} ClimbLooks(i: nat)
    requires i <= MAX_WALK
    ensures At(Climb(), LONG + 1 + i) == State(Ladder(0), map[0 := Call(LONG - 1, 0, i, i, i == MAX_WALK)])
  {
    hide Ladder, Read, Update;
    if i == 0 {
      ClimbBegins();
    } else {
      hide Step;
      ClimbLooks(i - 1);
      assert Climb()[LONG + i] == Look(0);
      OneLook(i);
    }
  }

  lemma ClimbBegins()
    ensures At(Climb(), LONG + 1) == State(Ladder(0), map[0 := Call(LONG - 1, 0, 0, 0, false)])
  {
    ClimbRegisters(LONG);
    assert Climb()[LONG] == Begin(0, LONG - 1, 0);
    assert 0 in Ladder(0);
  }

  lemma {:induction false} RingUp(n: Users, i: nat, k: nat)
    requires n == Ladder(0)[LONG - 1 := Some(0)] && i + k <= LONG - 1
    ensures Up(n, i, k) == Some(i + k)
    decreases k
  {
    if k > 0 {
      RingUp(n, i + 1, k - 1);
    }
  }

  /** A single call, with nobody else about, can close a cycle of sixty-six. */
  lemma LongCycleIsPossible()
    ensures Serial(Climb()) && Up(At(Climb(), 2 * LONG).users, LONG - 1, LONG) == Some(LONG - 1)
  {
    assert forall k: nat | k < 2 * LONG - 1 :: !Climb()[k].Record?;
    ClimbLooks(MAX_WALK);
    assert Climb()[2 * LONG - 1] == Record(0);
    var n := At(Climb(), 2 * LONG).users;
    assert n == Ladder(0)[LONG - 1 := Some(0)];
    RingUp(n, 0, LONG - 1);
  }
}
