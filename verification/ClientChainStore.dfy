/** Client proxy chains in the entry store: what validated writes and guarded deletes keep. */
module ClientChainStore {
  import opened Collections

  const MAX_CHAIN := 8
  const PROPOSED := -1

  /** A subscription entry: the inbound it publishes and the entry that dials it, if any. */
  datatype Entry = Entry(dialer: Option<int>, inbound: int)

  type Entries = map<int, Entry>

  // ----- chains ---------------------------------------------------------------------------

  /** The chain of `id` resolves, front by front, within `n` entries. */
  predicate ChainOk(m: Entries, id: int, n: nat)
    decreases n
  {
    && n > 0 && id in m
    && (m[id].dialer.Some? ==> m[id].dialer.value > 0 && ChainOk(m, m[id].dialer.value, n - 1))
  }

  /** The number of entries of a chain. */
  function ChainLength(m: Entries, id: int, n: nat): (l: nat)
    requires ChainOk(m, id, n)
    ensures 1 <= l <= n
    decreases n
  {
    if m[id].dialer.None? then 1 else 1 + ChainLength(m, m[id].dialer.value, n - 1)
  }

  lemma {:induction false} ChainLonger(m: Entries, id: int, n: nat, k: nat)
    requires ChainOk(m, id, n) && n <= k
    ensures ChainOk(m, id, k) && ChainLength(m, id, k) == ChainLength(m, id, n)
    decreases n
  {
    if m[id].dialer.Some? {
      ChainLonger(m, m[id].dialer.value, n - 1, k - 1);
    }
  }

  /** Nothing a write may not depend on: no entry with a front, and no front, is on its way out. */
  predicate Settled(m: Entries, pending: set<int>) {
    forall id | id in m && m[id].dialer.Some? ::
      m[id].inbound !in pending && (m[id].dialer.value in m ==> m[m[id].dialer.value].inbound !in pending)
  }

  predicate AllChainsOk(m: Entries) { forall id | id in m :: ChainOk(m, id, 8) }

  // ----- the validator -----------------------------------------------------------------------

  /** Every seen entry of a chain that ends is further from the end than the next one. */
  ghost predicate Approaching(m: Entries, seen: set<int>, current: int) {
    forall s | s in seen :: ChainOk(m, s, MAX_CHAIN) && ChainOk(m, current, MAX_CHAIN) && ChainLength(m, s, MAX_CHAIN) >= ChainLength(m, current, MAX_CHAIN)
  }

  lemma FrontIsCloser(m: Entries, id: int)
    requires ChainOk(m, id, MAX_CHAIN) && m[id].dialer.Some?
    ensures ChainOk(m, m[id].dialer.value, MAX_CHAIN)
    ensures ChainLength(m, m[id].dialer.value, MAX_CHAIN) == ChainLength(m, id, MAX_CHAIN) - 1
  {
    ChainLonger(m, m[id].dialer.value, MAX_CHAIN - 1, MAX_CHAIN);
  }

  /** Walk one root: refused exactly when its chain does not end within eight entries, or an
      entry it depends on is being removed. */
  method WalkRoot(m: Entries, root: int, pending: set<int>) returns (ok: bool)
    requires root in m
    ensures ok ==> ChainOk(m, root, MAX_CHAIN)
    ensures ok ==> m[root].dialer.Some? ==> m[root].inbound !in pending && m[m[root].dialer.value].inbound !in pending
    ensures !ok ==> !ChainOk(m, root, MAX_CHAIN) || !Settled(m, pending)
  {
    if m[root].dialer.Some? && m[root].inbound in pending {
      return false;
    }
    var current, depth, seen := root, 1, {root};
    while m[current].dialer.Some?
      invariant 1 <= depth <= MAX_CHAIN && current in m
      invariant ChainOk(m, root, MAX_CHAIN) <==> ChainOk(m, current, MAX_CHAIN + 1 - depth)
      invariant ChainOk(m, root, MAX_CHAIN) ==> Approaching(m, seen, current)
      invariant depth > 1 ==> m[root].dialer.Some? && m[root].inbound !in pending
      invariant depth > 1 ==> m[root].dialer.value in m && m[m[root].dialer.value].inbound !in pending
      invariant depth == 1 ==> current == root
      decreases MAX_CHAIN - depth
    {
      var next := m[current].dialer.value;
      if ChainOk(m, root, MAX_CHAIN) {
        ChainLonger(m, current, MAX_CHAIN + 1 - depth, MAX_CHAIN);
        FrontIsCloser(m, current);
      }
      if next <= 0 || next in seen {
        return false;
      }
      if depth >= MAX_CHAIN {
        return false;
      }
      seen := seen + {next};
      if next !in m {
        return false;
      }
      if m[next].inbound in pending {
        return false;
      }
      current, depth := next, depth + 1;
    }
    ok := true;
  }

  /** Check the chains of all roots with the proposed entry in place. */
  method ValidateClientChain(entries: Entries, id: int, proposed: Entry, pending: set<int>) returns (ok: bool)
    ensures var m := entries[(if id == 0 then PROPOSED else id) := Normal(proposed)];
      ok <==> AllChainsOk(m) && Settled(m, pending)
  {
    var m := entries[(if id == 0 then PROPOSED else id) := Normal(proposed)];
    var todo := m.Keys;
    while todo != {}
      invariant todo <= m.Keys
      invariant forall r | r in m && r !in todo :: ChainOk(m, r, MAX_CHAIN)
      invariant forall r | r in m && r !in todo && m[r].dialer.Some? :: m[r].inbound !in pending && m[m[r].dialer.value].inbound !in pending
      decreases |todo|
    {
      var root := Pick(todo);
      var fine := WalkRoot(m, root, pending);
      if !fine {
        return false;
      }
      todo := todo - {root};
    }
    ok := true;
  }

  /** A dialer of zero means none. */
  function Normal(e: Entry): Entry {
    if e.dialer == Some(0) then e.(dialer := None) else e
  }

  // ----- the store ------------------------------------------------------------------------------

  /** Every stored entry has a positive identifier and a chain that ends within eight entries. */
  ghost predicate StoreOk(m: Entries) {
    AllChainsOk(m) && forall id | id in m :: id > 0
  }

  lemma {:induction false} ChainInLarger(m: Entries, big: Entries, id: int, n: nat)
    requires ChainOk(m, id, n) && forall k | k in m :: k in big && big[k] == m[k]
    ensures ChainOk(big, id, n)
    decreases n
  {
    if m[id].dialer.Some? {
      ChainInLarger(m, big, m[id].dialer.value, n - 1);
    }
  }

  lemma {:induction false} ChainAvoidsProposal(m: Entries, e: Entry, id: int, n: nat)
    requires id > 0 && ChainOk(m[PROPOSED := e], id, n)
    ensures ChainOk(m, id, n)
    decreases n
  {
    if m[id].dialer.Some? {
      ChainAvoidsProposal(m, e, m[id].dialer.value, n - 1);
    }
  }

  /** A validated entry stored under a new identifier keeps every chain. */
  lemma CreateKeeps(m: Entries, e: Entry, id: int)
    requires StoreOk(m) && AllChainsOk(m[PROPOSED := e]) && id > 0 && id !in m
    ensures StoreOk(m[id := e])
  {
    var after := m[id := e];
    forall k | k in after
      ensures ChainOk(after, k, MAX_CHAIN)
    {
      if k == id {
        assert ChainOk(m[PROPOSED := e], PROPOSED, MAX_CHAIN);
        if e.dialer.Some? {
          ChainAvoidsProposal(m, e, e.dialer.value, MAX_CHAIN - 1);
          ChainInLarger(m, after, e.dialer.value, MAX_CHAIN - 1);
        }
      } else {
        ChainInLarger(m, after, k, MAX_CHAIN);
      }
    }
  }

  /** The entry `k` fronts ahead of `id`. */
  function Ahead(m: Entries, id: int, k: nat): Option<int>
    decreases k
  {
    if id !in m then None
    else if k == 0 then Some(id)
    else if m[id].dialer.None? then None
    else Ahead(m, m[id].dialer.value, k - 1)
  }

  lemma {:induction false} AheadIsCloser(m: Entries, id: int, k: nat, n: nat)
    requires ChainOk(m, id, n) && Ahead(m, id, k).Some?
    ensures k < n && ChainOk(m, Ahead(m, id, k).value, n - k)
    ensures ChainLength(m, Ahead(m, id, k).value, n - k) == ChainLength(m, id, n) - k
    decreases k
  {
    if k > 0 {
      AheadIsCloser(m, m[id].dialer.value, k - 1, n - 1);
    }
  }

  /** In a well-formed store no entry is dialled, however indirectly, through itself, and no
      entry has eight or more fronts ahead of it. */
  lemma ChainsNeverReturn(m: Entries, id: int, k: nat)
    requires StoreOk(m) && id in m && k > 0
    ensures Ahead(m, id, k) != Some(id)
    ensures k >= 8 ==> Ahead(m, id, k) == None
  {
    if Ahead(m, id, k).Some? {
      AheadIsCloser(m, id, k, MAX_CHAIN);
      ChainLonger(m, Ahead(m, id, k).value, MAX_CHAIN - k, MAX_CHAIN);
    }
  }

  predicate DependedOn(m: Entries, gone: set<int>) {
    exists id | id in m :: m[id].dialer.Some? && m[id].dialer.value in gone
  }

  lemma {:induction false} ChainSurvives(m: Entries, gone: set<int>, id: int, n: nat)
    requires ChainOk(m, id, n) && !DependedOn(m, gone) && id !in gone
    ensures ChainOk(m - gone, id, n)
    decreases n
  {
    if m[id].dialer.Some? {
      ChainSurvives(m, gone, m[id].dialer.value, n - 1);
    }
  }

  /** Deleting entries that nobody dials through keeps every chain. */
  lemma RemoveKeeps(m: Entries, gone: set<int>)
    requires StoreOk(m) && !DependedOn(m, gone)
    ensures StoreOk(m - gone)
  {
    forall id | id in m - gone
      ensures ChainOk(m - gone, id, MAX_CHAIN)
    {
      ChainSurvives(m, gone, id, MAX_CHAIN);
    }
  }

  class EntryStore {
    var entries: Entries
    var nextId: int

    ghost predicate Valid()
      reads this
    {
      StoreOk(entries) && nextId > 0 && forall id | id in entries :: id < nextId
    }

    constructor ()
      ensures Valid() && entries == map[]
    {
      entries, nextId := map[], 1;
    }

    /** Create an entry under a new identifier, unless some chain would break. */
    method CreateEntry(e: Entry, pending: set<int>) returns (ok: bool)
      requires Valid()
      modifies this
      ensures Valid()
      ensures ok <==> AllChainsOk(old(entries)[PROPOSED := Normal(e)]) && Settled(old(entries)[PROPOSED := Normal(e)], pending)
      ensures entries == if ok then old(entries)[old(nextId) := Normal(e)] else old(entries)
    {
      ok := ValidateClientChain(entries, 0, e, pending);
      if ok {
        CreateKeeps(entries, Normal(e), nextId);
        entries, nextId := entries[nextId := Normal(e)], nextId + 1;
      }
    }

    /** Update an existing entry, unless some chain would break. */
    method UpdateEntry(id: int, e: Entry, pending: set<int>) returns (ok: bool)
      requires Valid()
      modifies this
      ensures Valid()
      ensures ok <==> id in old(entries) && AllChainsOk(old(entries)[id := Normal(e)]) && Settled(old(entries)[id := Normal(e)], pending)
      ensures entries == if ok then old(entries)[id := Normal(e)] else old(entries)
    {
      ok := ValidateClientChain(entries, id, e, pending);
      if ok && id !in entries {
        ok := false;
      }
      if ok {
        entries := entries[id := Normal(e)];
      }
    }

    /** Delete an entry, or all entries of some inbounds, unless another entry dials through one. */
    method RemoveEntries(id: int, inbounds: set<int>) returns (ok: bool)
      requires Valid()
      modifies this
      ensures Valid()
      ensures var gone := set k | k in old(entries) && (k == id || old(entries)[k].inbound in inbounds);
        && (ok <==> !DependedOn(old(entries), gone))
        && entries == if ok then old(entries) - gone else old(entries)
    {
      var gone := set k | k in entries && (k == id || entries[k].inbound in inbounds);
      ok := !DependedOn(entries, gone);
      if ok {
        RemoveKeeps(entries, gone);
        entries := entries - gone;
      }
    }
  }

  /** A chain is in order exactly when, dialling on from entry to entry, one without a dialer is
      reached with at most eight entries, the references on the way being positive. */
  lemma {:induction false} ChainExactly(m: Entries, id: int, n: nat)
    ensures ChainOk(m, id, n) <==> exists k: nat | k < n :: EndsAhead(m, id, k)
    decreases n
  {
    if n > 0 && id in m {
      if m[id].dialer.None? {
        assert EndsAhead(m, id, 0);
      } else {
        var front := m[id].dialer.value;
        ChainExactly(m, front, n - 1);
        if k: nat :| k < n - 1 && EndsAhead(m, front, k) && front > 0 {
          EndsOneFurther(m, id, k);
        }
        if k: nat :| k < n && EndsAhead(m, id, k) {
          EndsOneCloser(m, id, k);
        }
      }
    }
  }

  /** `k` fronts ahead of `id` the chain ends, and each front up to there has a positive number. */
  ghost predicate EndsAhead(m: Entries, id: int, k: nat) {
    && Ahead(m, id, k).Some? && Ahead(m, id, k).value in m && m[Ahead(m, id, k).value].dialer.None?
    && forall j: nat | 1 <= j <= k :: Ahead(m, id, j).Some? && Ahead(m, id, j).value > 0
  }

  lemma EndsOneFurther(m: Entries, id: int, k: nat)
    requires id in m && m[id].dialer.Some? && m[id].dialer.value > 0 && EndsAhead(m, m[id].dialer.value, k)
    ensures EndsAhead(m, id, k + 1)
  {
    forall j: nat | 1 <= j <= k + 1
      ensures Ahead(m, id, j).Some? && Ahead(m, id, j).value > 0
    {
      assert Ahead(m, id, j) == Ahead(m, m[id].dialer.value, j - 1);
    }
  }

  lemma EndsOneCloser(m: Entries, id: int, k: nat)
    requires id in m && m[id].dialer.Some? && EndsAhead(m, id, k)
    ensures k > 0 && m[id].dialer.value > 0 && EndsAhead(m, m[id].dialer.value, k - 1)
  {
    assert Ahead(m, id, 1) == Ahead(m, m[id].dialer.value, 0);
    forall j: nat | 1 <= j <= k - 1
      ensures Ahead(m, m[id].dialer.value, j).Some? && Ahead(m, m[id].dialer.value, j).value > 0
    {
      assert Ahead(m, id, j + 1) == Ahead(m, m[id].dialer.value, j);
    }
  }
}
