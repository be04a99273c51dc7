/** The rewards of a paid order: a walk up the buyer's inviters that stops where it would meet
    somebody again.  Nothing is assumed of the referral graph. */
module ReferralRewards {
  import opened Collections
  import opened Referrals

  datatype InviteSettings = InviteSettings(percent: int, multiLevel: bool, level2: int, level3: int)

  /** The reward of each level; trailing levels that pay nothing are dropped. */
  method LevelPercents(s: InviteSettings) returns (out: seq<int>)
    ensures 1 <= |out| <= 3 && out[0] == s.percent
    ensures out <= [s.percent, s.level2, s.level3]
    ensures |out| > 1 ==> s.multiLevel && out[|out| - 1] > 0
    ensures s.multiLevel && |out| < 3 ==> s.level3 <= 0
    ensures s.multiLevel && |out| < 2 ==> s.level2 <= 0
  {
    out := [s.percent];
    if s.multiLevel {
      out := out + [s.level2, s.level3];
      while |out| > 1 && out[|out| - 1] <= 0
        invariant 1 <= |out| <= 3 && out <= [s.percent, s.level2, s.level3]
        invariant |out| < 3 ==> s.level3 <= 0
        invariant |out| < 2 ==> s.level2 <= 0
      {
        out := out[..|out| - 1];
      }
    }
  }

  // ----- how far the walk goes ------------------------------------------------------------------------

  /** The first `n` levels above the buyer exist, and no two of them, nor the buyer, are one person. */
  ghost predicate AllDifferent(m: Users, buyer: int, n: nat) {
    && (forall k: nat | k <= n :: Up(m, buyer, k).Some?)
    && (forall j: nat, k: nat | j < k <= n :: Up(m, buyer, j) != Up(m, buyer, k))
  }

  /** The walk ends after `n` levels: at the limit, at somebody without an inviter, or before
      somebody it has met. */
  ghost predicate EndsAfter(m: Users, buyer: int, limit: nat, n: nat) {
    n <= limit && AllDifferent(m, buyer, n) && (n < limit ==> !AllDifferent(m, buyer, n + 1))
  }

  lemma DifferentBelow(m: Users, buyer: int, n: nat, k: nat)
    requires AllDifferent(m, buyer, n) && k <= n
    ensures AllDifferent(m, buyer, k)
  {
  }

  /** The length of the walk is determined by the graph. */
  lemma EndIsUnique(m: Users, buyer: int, limit: nat, n: nat, k: nat)
    requires EndsAfter(m, buyer, limit, n) && EndsAfter(m, buyer, limit, k)
    ensures n == k
  {
    if n < k {
      DifferentBelow(m, buyer, k, n + 1);
    } else if k < n {
      DifferentBelow(m, buyer, n, k + 1);
    }
  }

  // ----- who earns what -------------------------------------------------------------------------------

  /** A paid reward, kept under its order and level. */
  datatype Commission = Commission(inviter: int, buyer: int, cents: int)

  type Commissions = map<(int, int), Commission>

  function Share(cents: int, percent: int): int { cents * percent / 100 }

  /** Level `l` of the order pays something and has not been paid. */
  predicate Due(paid: Commissions, order: int, cents: int, percents: seq<int>, l: nat) {
    1 <= l <= |percents| && Share(cents, percents[l - 1]) > 0 && (order, l) !in paid
  }

  /** What the first `n` levels pay to user `u`. */
  function Earned(m: Users, paid: Commissions, order: int, buyer: int, cents: int, percents: seq<int>, n: nat, u: int): int
    requires n <= |percents|
  {
    if n == 0 then 0
    else
      Earned(m, paid, order, buyer, cents, percents, n - 1, u)
      + if Due(paid, order, cents, percents, n) && Up(m, buyer, n) == Some(u) then Share(cents, percents[n - 1]) else 0
  }

  /** The table of commissions after the first `n` levels. */
  function Entered(m: Users, paid: Commissions, order: int, buyer: int, cents: int, percents: seq<int>, n: nat): Commissions
    requires n <= |percents|
  {
    if n == 0 then paid
    else
      var before := Entered(m, paid, order, buyer, cents, percents, n - 1);
      if Due(paid, order, cents, percents, n) && Up(m, buyer, n).Some?
      then before[(order, n) := Commission(Up(m, buyer, n).value, buyer, Share(cents, percents[n - 1]))] else before
  }

  lemma {:induction false} NotMetNotPaid(m: Users, paid: Commissions, order: int, buyer: int, cents: int, percents: seq<int>, n: nat, u: int)
    requires n <= |percents| && forall k: nat | 1 <= k <= n :: Up(m, buyer, k) != Some(u)
    ensures Earned(m, paid, order, buyer, cents, percents, n, u) == 0
  {
    if n > 0 {
      NotMetNotPaid(m, paid, order, buyer, cents, percents, n - 1, u);
    }
  }

  /** On any graph, cyclic or not, the buyer earns nothing by the order, and whoever stands at level
      `l` earns the share of that level and of no other. */
  lemma {:induction false} RewardsReachOthers(m: Users, paid: Commissions, order: int, buyer: int, cents: int, percents: seq<int>, n: nat, l: nat)
    requires n <= |percents| && AllDifferent(m, buyer, n) && l <= n
    ensures Earned(m, paid, order, buyer, cents, percents, n, Up(m, buyer, l).value) ==
      if 1 <= l && cents * percents[l - 1] / 100 > 0 && (order, l) !in paid then cents * percents[l - 1] / 100 else 0
    decreases n
  {
    var u := Up(m, buyer, l).value;
    if l == n {
      if n > 0 {
        NotMetNotPaid(m, paid, order, buyer, cents, percents, n - 1, u);
      }
    } else {
      DifferentBelow(m, buyer, n, n - 1);
      RewardsReachOthers(m, paid, order, buyer, cents, percents, n - 1, l);
      assert Up(m, buyer, l) != Up(m, buyer, n);
    }
  }

  lemma {:induction false} EnteredLevels(m: Users, paid: Commissions, order: int, buyer: int, cents: int, percents: seq<int>, n: nat, o: int, l: int)
    requires n <= |percents| && AllDifferent(m, buyer, n)
    ensures var after := Entered(m, paid, order, buyer, cents, percents, n);
      && ((o, l) in after <==> (o, l) in paid || (o == order && 1 <= l <= n && Due(paid, order, cents, percents, l)))
      && ((o, l) in paid ==> after[(o, l)] == paid[(o, l)])
  {
    if n > 0 {
      DifferentBelow(m, buyer, n, n - 1);
      EnteredLevels(m, paid, order, buyer, cents, percents, n - 1, o, l);
    }
  }

  /** Running the bookkeeping of an order again pays nobody anything. */
  lemma {:induction false} PaidOnce(m: Users, paid: Commissions, order: int, buyer: int, cents: int, percents: seq<int>, n: nat, k: nat, u: int)
    requires k <= n <= |percents| && AllDifferent(m, buyer, n)
    ensures Earned(m, Entered(m, paid, order, buyer, cents, percents, n), order, buyer, cents, percents, k, u) == 0
    decreases k
  {
    hide Entered;
    if k > 0 {
      PaidOnce(m, paid, order, buyer, cents, percents, n, k - 1, u);
      EnteredLevels(m, paid, order, buyer, cents, percents, n, order, k);
    }
  }

  // ----- the bookkeeping -----------------------------------------------------------------------------

  function Balance(balances: map<int, int>, u: int): int { if u in balances then balances[u] else 0 }

  /** The books after the first `n` levels of an order. */
  ghost predicate Booked(m: Users, paid: Commissions, balances: map<int, int>, order: int, buyer: int, cents: int, percents: seq<int>, n: nat,
                         paid': Commissions, balances': map<int, int>)
    requires n <= |percents|
  {
    && paid' == Entered(m, paid, order, buyer, cents, percents, n)
    && forall u :: Balance(balances', u) == Balance(balances, u) + Earned(m, paid, order, buyer, cents, percents, n, u)
  }

  /** The walk has met `u`. */
  ghost predicate Met(m: Users, buyer: int, level: nat, u: int) { exists k: nat | k <= level :: Up(m, buyer, k) == Some(u) }

  class Ledger {
    var users: Users
    var balances: map<int, int>
    var paid: Commissions

    /** The reward walk of one paid order, with the set of those it has met. */
    method PayRewards(order: int, buyer: int, cents: int, percents: seq<int>) returns (ghost n: nat)
      modifies this`balances, this`paid
      ensures EndsAfter(users, buyer, |percents|, n)
      ensures Booked(users, old(paid), old(balances), order, buyer, cents, percents, n, paid, balances)
    {
      hide Share, Booked, Met, AllDifferent;
      n := 0;
      var current, seen, level := buyer, {buyer}, 0;
      Outset(users, paid, balances, order, buyer, cents, percents);
      while level < |percents|
        invariant 0 <= level <= |percents| && n == level && AllDifferent(users, buyer, level)
        invariant Up(users, buyer, level) == Some(current)
        invariant forall u :: u in seen <==> Met(users, buyer, level, u)
        invariant Booked(users, old(paid), old(balances), order, buyer, cents, percents, level, paid, balances)
      {
        UpOnce(users, buyer, level);
        if current !in users || users[current].None? || users[current].value in seen {
          NobodyNew(users, buyer, level);
          return;
        }
        var inviter, share := users[current].value, Share(cents, percents[level]);
        NextIsNew(users, buyer, level, inviter);
        BookedOneMore(users, old(paid), old(balances), order, buyer, cents, percents, level, paid, balances, inviter);
        seen, current := seen + {inviter}, inviter;
        level := level + 1;
        n := level;
        if share > 0 && (order, level) !in paid {
          paid := paid[(order, level) := Commission(inviter, buyer, share)];
          balances := balances[inviter := Balance(balances, inviter) + share];
        }
      }
    }
  }

  lemma Outset(m: Users, paid: Commissions, balances: map<int, int>, order: int, buyer: int, cents: int, percents: seq<int>)
    ensures AllDifferent(m, buyer, 0) && Booked(m, paid, balances, order, buyer, cents, percents, 0, paid, balances)
    ensures forall u :: u == buyer <==> Met(m, buyer, 0, u)
  {
    forall u
      ensures u == buyer <==> Met(m, buyer, 0, u)
    {
      assert Up(m, buyer, 0) == Some(buyer);
    }
  }

  lemma NobodyNew(m: Users, buyer: int, level: nat)
    requires Up(m, buyer, level + 1).Some? ==> Met(m, buyer, level, Up(m, buyer, level + 1).value)
    ensures !AllDifferent(m, buyer, level + 1)
  {
  }

  lemma NextIsNew(m: Users, buyer: int, level: nat, inviter: int)
    requires AllDifferent(m, buyer, level) && Up(m, buyer, level + 1) == Some(inviter) && !Met(m, buyer, level, inviter)
    ensures AllDifferent(m, buyer, level + 1)
    ensures forall u :: Met(m, buyer, level + 1, u) <==> Met(m, buyer, level, u) || u == inviter
  {
    forall u
      ensures Met(m, buyer, level + 1, u) <==> Met(m, buyer, level, u) || u == inviter
    {
      if k: nat :| k <= level && Up(m, buyer, k) == Some(u) {
        assert Met(m, buyer, level + 1, u);
      }
    }
  }

  /** The entry the walk makes, or leaves out, at the next level. */
  lemma BookedOneMore(m: Users, paid: Commissions, balances: map<int, int>, order: int, buyer: int, cents: int, percents: seq<int>, level: nat,
                      paid': Commissions, balances': map<int, int>, inviter: int)
    requires level < |percents| && AllDifferent(m, buyer, level) && Up(m, buyer, level + 1) == Some(inviter)
    requires Booked(m, paid, balances, order, buyer, cents, percents, level, paid', balances')
    ensures var share := Share(cents, percents[level]);
      if share > 0 && (order, level + 1) !in paid' then
        Booked(m, paid, balances, order, buyer, cents, percents, level + 1,
               paid'[(order, level + 1) := Commission(inviter, buyer, share)],
               balances'[inviter := Balance(balances', inviter) + share])
      else Booked(m, paid, balances, order, buyer, cents, percents, level + 1, paid', balances')
  {
    hide Share, Earned, Entered, Due;
    EnteredLevels(m, paid, order, buyer, cents, percents, level, order, level + 1);
    OneLevel(m, paid, order, buyer, cents, percents, level, inviter);
    if !(Share(cents, percents[level]) > 0 && (order, level + 1) !in paid') {
      SameBooks(m, paid, balances, order, buyer, cents, percents, level, paid', balances');
    }
  }

  lemma SameBooks(m: Users, paid: Commissions, balances: map<int, int>, order: int, buyer: int, cents: int, percents: seq<int>, level: nat,
                  paid': Commissions, balances': map<int, int>)
    requires level < |percents| && Booked(m, paid, balances, order, buyer, cents, percents, level, paid', balances')
    requires Entered(m, paid, order, buyer, cents, percents, level + 1) == Entered(m, paid, order, buyer, cents, percents, level)
    requires forall u :: Earned(m, paid, order, buyer, cents, percents, level + 1, u) == Earned(m, paid, order, buyer, cents, percents, level, u)
    ensures Booked(m, paid, balances, order, buyer, cents, percents, level + 1, paid', balances')
  {
    hide Earned, Entered;
  }

  lemma OneLevel(m: Users, paid: Commissions, order: int, buyer: int, cents: int, percents: seq<int>, level: nat, inviter: int)
    requires level < |percents| && Up(m, buyer, level + 1) == Some(inviter)
    ensures var share := Share(cents, percents[level]);
      var due := share > 0 && (order, level + 1) !in paid;
      && (due <==> Due(paid, order, cents, percents, level + 1))
      && Entered(m, paid, order, buyer, cents, percents, level + 1) ==
           (var before := Entered(m, paid, order, buyer, cents, percents, level);
            if due then before[(order, level + 1) := Commission(inviter, buyer, share)] else before)
      && (forall u :: Earned(m, paid, order, buyer, cents, percents, level + 1, u) ==
            Earned(m, paid, order, buyer, cents, percents, level, u) + if due && u == inviter then share else 0)
  {
    hide Share;
  }
}
