/** The referral graph, and one invitation by itself: a bounded walk, then a guarded update. */
module Referrals {
  import opened Collections

  const MAX_WALK := 64

  datatype Failure = YourselfInvited | InviteeInvited | AlreadyInvited

  /** Each user's inviter, if any. */
  type Users = map<int, Option<int>>

  /** The inviter `k` levels up. */
  function Up(m: Users, id: int, k: nat): Option<int>
    decreases k
  {
    if k == 0 then Some(id)
    else if id !in m || m[id].None? then None
    else Up(m, m[id].value, k - 1)
  }

  /** No user is their own inviter, at any distance the walk and one more step can see. */
  ghost predicate NoShortCycle(m: Users) {
    forall u, k: nat | 1 <= k <= 65 :: Up(m, u, k) != Some(u)
  }

  ghost predicate Known(m: Users) {
    forall u | u in m && m[u].Some? :: m[u].value in m
  }

  /** The user is among the inviter's first ancestors. */
  ghost predicate LeadsBack(m: Users, inviter: int, user: int, n: nat) {
    exists k: nat | 1 <= k <= n :: Up(m, inviter, k) == Some(user)
  }

  ghost predicate OwnAncestor(m: Users, user: int) {
    exists k: nat | k >= 1 :: Up(m, user, k) == Some(user)
  }

  // ----- the operation ----------------------------------------------------------------------------

  ghost function Outcome(m: Users, user: int, inviter: int): Option<Failure> {
    if user == inviter then Some(YourselfInvited)
    else if LeadsBack(m, inviter, user, 64) then Some(InviteeInvited)
    else if user !in m || m[user].Some? then Some(AlreadyInvited)
    else None
  }

  lemma {:induction false} UpOnce(m: Users, id: int, k: nat)
    ensures Up(m, id, k + 1) == (if Up(m, id, k).Some? then Up(m, Up(m, id, k).value, 1) else None)
    decreases k
  {
    if k > 0 && id in m && m[id].Some? {
      UpOnce(m, m[id].value, k - 1);
    }
  }

  lemma {:induction false} UpSum(m: Users, id: int, a: nat, b: nat)
    ensures Up(m, id, a + b) == (if Up(m, id, a).Some? then Up(m, Up(m, id, a).value, b) else None)
    decreases a
  {
    if a > 0 && id in m && m[id].Some? {
      UpSum(m, m[id].value, a - 1, b);
    }
  }

  /** The walk up the inviter's chain, at most sixty-four levels. */
  method Walk(m: Users, user: int, inviter: int) returns (back: bool)
    ensures back <==> LeadsBack(m, inviter, user, 64)
  {
    var current, i := inviter, 0;
    while i < MAX_WALK
      invariant 0 <= i <= MAX_WALK
      invariant Up(m, inviter, i) == Some(current)
      invariant forall k: nat | 1 <= k <= i :: Up(m, inviter, k) != Some(user)
    {
      UpOnce(m, inviter, i);
      if current !in m || m[current].None? {
        forall k: nat | i < k
          ensures Up(m, inviter, k) == None
        {
          UpSum(m, inviter, i, k - i);
        }
        return false;
      }
      if m[current].value == user {
        var k := i + 1;
        assert Up(m, inviter, k) == Some(user);
        return true;
      }
      current, i := m[current].value, i + 1;
    }
    back := false;
  }

  class UserStore {
    var users: Users

    ghost predicate Valid()
      reads this
    {
      NoShortCycle(users) && Known(users)
    }

    constructor ()
      ensures Valid() && users == map[]
    {
      users := map[];
      new;
      assert forall u, k: nat | 1 <= k <= MAX_WALK + 1 :: Up(users, u, k) == None;
    }

    /** Register a user, possibly with an inviter. */
    method CreateUser(id: int, inviter: Option<int>)
      requires Valid() && id !in users && (inviter.Some? ==> inviter.value in users)
      modifies this
      ensures Valid() && users == old(users)[id := inviter]
    {
      CreateKeeps(users, id, inviter);
      users := users[id := inviter];
    }

    /** Record an inviter, once, after a bounded walk up the inviter's chain, when no other call
        comes in between. */
    method SetInvitedBy(user: int, inviter: int) returns (failure: Option<Failure>)
      requires Valid() && inviter in users
      modifies this
      ensures Valid()
      ensures failure == Outcome(old(users), user, inviter)
      ensures users == if failure == None then old(users)[user := Some(inviter)] else old(users)
    {
      if user == inviter {
        return Some(YourselfInvited);
      }
      var back := Walk(users, user, inviter);
      if back {
        return Some(InviteeInvited);
      }
      if user !in users || users[user].Some? {
        return Some(AlreadyInvited);
      }
      InviteKeeps(users, user, inviter);
      users := users[user := Some(inviter)];
      failure := None;
    }
  }

  // ----- what the walk protects ------------------------------------------------------------------------

  /** Until the changed user is met, old and new chains agree. */
  lemma {:induction false} SameUntil(m: Users, n: Users, user: int, id: int, k: nat)
    requires forall u | u != user :: (u in m <==> u in n) && (u in m ==> m[u] == n[u])
    requires forall j: nat | j < k :: Up(n, id, j) != Some(user)
    ensures Up(n, id, k) == Up(m, id, k)
    decreases k
  {
    if k > 0 {
      assert Up(n, id, 0) != Some(user);
      if id in n && n[id].Some? {
        forall j: nat | j < k - 1
          ensures Up(n, n[id].value, j) != Some(user)
        {
          assert Up(n, id, j + 1) != Some(user);
        }
        SameUntil(m, n, user, n[id].value, k - 1);
      }
    }
  }

  /** The first time a chain of the new graph meets the user it has followed the old graph. */
  lemma {:induction false} FirstMeeting(m: Users, n: Users, user: int, id: int, k: nat)
    requires forall u | u != user :: (u in m <==> u in n) && (u in m ==> m[u] == n[u])
    requires Up(n, id, k) == Some(user)
    ensures exists j: nat | j <= k :: Up(m, id, j) == Some(user)
    decreases k
  {
    if j: nat :| j < k && Up(n, id, j) == Some(user) {
      FirstMeeting(m, n, user, id, j);
    } else {
      SameUntil(m, n, user, id, k);
    }
  }

  lemma InviteKeeps(m: Users, user: int, inviter: int)
    requires NoShortCycle(m) && Known(m) && user in m && inviter in m && m[user].None? && user != inviter
    requires !LeadsBack(m, inviter, user, MAX_WALK)
    ensures NoShortCycle(m[user := Some(inviter)]) && Known(m[user := Some(inviter)])
  {
    var n := m[user := Some(inviter)];
    forall w, k: nat | 1 <= k <= MAX_WALK + 1
      ensures Up(n, w, k) != Some(w)
    {
      if Up(n, w, k) == Some(w) {
        CycleMeetsUser(m, n, user, inviter, w, k);
        assert false;
      }
    }
  }

  /** A cycle of the new graph runs through the new edge, and so shows in the walk. */
  lemma CycleMeetsUser(m: Users, n: Users, user: int, inviter: int, w: int, k: nat)
    requires NoShortCycle(m) && user in m && user != inviter && n == m[user := Some(inviter)]
    requires 1 <= k <= MAX_WALK + 1 && Up(n, w, k) == Some(w)
    ensures LeadsBack(m, inviter, user, k - 1)
  {
    if i: nat :| i < k && Up(n, w, i) == Some(user) {
      UpSum(n, w, i, k - i);
      UpSum(n, user, k - i, i);
      assert Up(n, user, k) == Some(user);
      assert Up(n, inviter, k - 1) == Some(user);
      FirstMeeting(m, n, user, inviter, k - 1);
      var j: nat :| j <= k - 1 && Up(m, inviter, j) == Some(user);
      assert j != 0;
    } else {
      SameUntil(m, n, user, w, k);
      assert false;
    }
  }

  /** Recording an inviter closes a cycle within sixty-five levels exactly when, at that moment, the
      inviter's chain leads back to the user within sixty-four. */
  lemma RecordClosesExactly(m: Users, user: int, inviter: int)
    requires NoShortCycle(m) && Known(m) && user in m && inviter in m && m[user].None? && user != inviter
    ensures NoShortCycle(m[user := Some(inviter)]) <==> !LeadsBack(m, inviter, user, 64)
  {
    var n := m[user := Some(inviter)];
    if !LeadsBack(m, inviter, user, MAX_WALK) {
      InviteKeeps(m, user, inviter);
    } else {
      var j: nat :| 1 <= j <= MAX_WALK && Up(m, inviter, j) == Some(user);
      NewReaches(m, n, user, inviter, j);
      var i: nat :| i <= j && Up(n, inviter, i) == Some(user);
      var k := i + 1;
      assert Up(n, user, k) == Some(user);
    }
  }

  lemma CreateKeeps(m: Users, id: int, inviter: Option<int>)
    requires NoShortCycle(m) && Known(m) && id !in m && (inviter.Some? ==> inviter.value in m)
    ensures NoShortCycle(m[id := inviter]) && Known(m[id := inviter])
  {
    var n := m[id := inviter];
    forall w, k: nat | 1 <= k <= MAX_WALK + 1
      ensures Up(n, w, k) != Some(w)
    {
      NeverMeetsNew(m, n, id, inviter, w, k);
    }
  }

  /** Nobody's chain leads to a user who has only just registered. */
  lemma {:induction false} NeverMeetsNew(m: Users, n: Users, id: int, inviter: Option<int>, w: int, k: nat)
    requires Known(m) && id !in m && (inviter.Some? ==> inviter.value in m) && n == m[id := inviter]
    requires NoShortCycle(m) && 1 <= k <= MAX_WALK + 1
    ensures Up(n, w, k) != Some(w)
  {
    if w in n && n[w].Some? {
      StaysKnown(m, n, id, n[w].value, k - 1);
      if w != id {
        SameUntil(m, n, id, w, k) by {
          forall j: nat | j < k
            ensures Up(n, w, j) != Some(id)
          {
            if j > 0 {
              StaysKnown(m, n, id, n[w].value, j - 1);
            }
          }
        }
      }
    }
  }

  lemma {:induction false} StaysKnown(m: Users, n: Users, id: int, w: int, k: nat)
    requires Known(m) && id !in m && w in m && (forall u | u != id :: (u in m <==> u in n) && (u in m ==> m[u] == n[u]))
    ensures Up(n, w, k).Some? ==> Up(n, w, k).value in m
    decreases k
  {
    if k > 0 && n[w].Some? {
      StaysKnown(m, n, id, n[w].value, k - 1);
    }
  }

  /** A permitted invitation closes a cycle exactly when the inviter's chain leads back to the
      user beyond the reach of the walk. */
  lemma CycleExactlyBeyondTheWalk(m: Users, user: int, inviter: int)
    requires Outcome(m, user, inviter) == None
    ensures OwnAncestor(m[user := Some(inviter)], user) <==> exists j: nat | j > 64 :: Up(m, inviter, j) == Some(user)
  {
    var n := m[user := Some(inviter)];
    if k: nat :| k >= 1 && Up(n, user, k) == Some(user) {
      FirstMeeting(m, n, user, inviter, k - 1);
      var j: nat :| j <= k - 1 && Up(m, inviter, j) == Some(user);
      assert j > MAX_WALK;
    }
    if j: nat :| j > MAX_WALK && Up(m, inviter, j) == Some(user) {
      NewReaches(m, n, user, inviter, j);
      var i: nat :| i <= j && Up(n, inviter, i) == Some(user);
      var k := i + 1;
      assert Up(n, user, k) == Some(user);
    }
  }

  lemma {:induction false} NewReaches(m: Users, n: Users, user: int, id: int, k: nat)
    requires forall u | u != user :: (u in m <==> u in n) && (u in m ==> m[u] == n[u])
    requires Up(m, id, k) == Some(user)
    ensures exists i: nat | i <= k :: Up(n, id, i) == Some(user)
    decreases k
  {
    if id == user {
      assert Up(n, id, 0) == Some(user);
    } else {
      NewReaches(m, n, user, m[id].value, k - 1);
      var i: nat :| i <= k - 1 && Up(n, m[id].value, i) == Some(user);
      assert Up(n, id, i + 1) == Some(user);
    }
  }
}
