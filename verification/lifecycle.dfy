/** Account deletion at transaction end (EIP-6780), including delegated code. */
module Lifecycle {
  import opened Words
  import opened Trace

  // BSC mainnet: Cancun and Haber activate together.
  const BSC_CANCUN_TIME: nat := 1_718_863_500

  // ---------------------------------------------------------------- ancestry walk

  predicate Delegated(c: Call) {
    c.callType.Delegate? || c.callType.Callcode?
  }

  /** The first call that carries c's parent index and is not c's own index. */
  function Parent(c: Call, calls: seq<Call>): (r: Option<Call>)
    ensures r.Some? ==> r.value in calls && r.value.index == c.parentIndex
  {
    if calls == [] then None
    else if calls[0].index == c.parentIndex && calls[0].index != c.index then Some(calls[0])
    else Parent(c, calls[1..])
  }

  function Indices(calls: seq<Call>): set<nat> {
    set i | 0 <= i < |calls| :: calls[i].index
  }

  /** The account in whose context c executes. */
  function Context(c: Call, calls: seq<Call>, visited: set<nat> := {}): Result<Address>
    decreases Indices(calls) + {c.index} - visited
  {
    if !Delegated(c) then Ok(c.address)
    else if c.index in visited then Err("cyclic delegated call ancestry")
    else
      var parent := Parent(c, calls);
      if parent.None? then Err("delegated SELFDESTRUCT missing execution context")
      else Context(parent.value, calls, visited + {c.index})
  }

  /** A walk from call through delegated calls to their parents. */
  predicate IsChain(chain: seq<Call>, call: Call, calls: seq<Call>) {
    && chain != []
    && chain[0] == call
    && forall i :: 0 <= i < |chain| - 1 ==> Delegated(chain[i]) && Parent(chain[i], calls) == Some(chain[i + 1])
  }

  /** The walk has reached the nearest call that is not delegated. */
  predicate Complete(chain: seq<Call>, call: Call, calls: seq<Call>) {
    IsChain(chain, call, calls) && !Delegated(chain[|chain| - 1])
  }

  predicate UniqueIndices(calls: seq<Call>) {
    forall i, j :: 0 <= i < j < |calls| ==> calls[i].index != calls[j].index
  }

  /** The walk so far and the indices of the calls it has left behind. */
  ghost predicate Walked(chain: seq<Call>, visited: set<nat>, call: Call, calls: seq<Call>) {
    && IsChain(chain, call, calls)
    && (forall i :: 0 < i < |chain| ==> chain[i] in calls)
    && visited == Indices(chain[..|chain| - 1])
    && |visited| == |chain| - 1
  }

  lemma WalkStep(chain: seq<Call>, visited: set<nat>, call: Call, calls: seq<Call>)
    requires Walked(chain, visited, call, calls)
    requires Delegated(chain[|chain| - 1]) && chain[|chain| - 1].index !in visited
    requires Parent(chain[|chain| - 1], calls).Some?
    ensures Walked(chain + [Parent(chain[|chain| - 1], calls).value], visited + {chain[|chain| - 1].index}, call, calls)
  {
    var last, parent := chain[|chain| - 1], Parent(chain[|chain| - 1], calls).value;
    ChainExtends(chain, call, calls, parent);
    assert (chain + [parent])[..|chain|] == chain;
    assert chain[..|chain| - 1] + [last] == chain;
    IndicesAppend(chain[..|chain| - 1], last);
  }

  lemma IndicesAppend(chain: seq<Call>, last: Call)
    ensures Indices(chain + [last]) == Indices(chain) + {last.index}
  {
    var all := chain + [last];
    assert all[|chain|] == last && forall i :: 0 <= i < |chain| ==> all[i] == chain[i];
  }

  lemma ChainExtends(chain: seq<Call>, call: Call, calls: seq<Call>, parent: Call)
    requires IsChain(chain, call, calls) && Delegated(chain[|chain| - 1])
             && Parent(chain[|chain| - 1], calls) == Some(parent)
    requires forall i :: 0 < i < |chain| ==> chain[i] in calls
    ensures IsChain(chain + [parent], call, calls)
    ensures forall i :: 0 < i <= |chain| ==> (chain + [parent])[i] in calls
  {
  }

  method ExecutionAddress(call: Call, calls: seq<Call>) returns (r: Result<Address>)
    ensures r == Context(call, calls)
    ensures r.Ok? ==> exists chain: seq<Call> | Complete(chain, call, calls) ::
      r.value == chain[|chain| - 1].address && |chain| <= |calls| + (if call in calls then 1 else 2)
    ensures call in calls && UniqueIndices(calls) ==>
      (r.Ok? <==> exists chain: seq<Call> :: Complete(chain, call, calls))
  {
    var current, visited := call, {};
    ghost var chain := [call];
    while Delegated(current)
      invariant Walked(chain, visited, call, calls) && chain[|chain| - 1] == current
      invariant Context(current, calls, visited) == Context(call, calls)
      decreases Indices(calls) + {current.index} - visited
    {
      if current.index in visited {
        if call in calls && UniqueIndices(calls) { NoChainThroughCycle(chain, call, calls); }
        return Err("cyclic delegated call ancestry");
      }
      var parent := Parent(current, calls);
      if parent.None? {
        NoChainPastDeadEnd(chain, call, calls);
        return Err("delegated SELFDESTRUCT missing execution context");
      }
      WalkStep(chain, visited, call, calls);
      visited := visited + {current.index};
      current := parent.value;
      chain := chain + [current];
    }
    WalkLength(chain, call, calls);
    assert Complete(chain, call, calls);
    return Ok(current.address);
  }

  lemma WalkLength(chain: seq<Call>, call: Call, calls: seq<Call>)
    requires chain != [] && chain[0] == call
    requires forall i :: 0 < i < |chain| ==> chain[i] in calls
    requires |Indices(chain[..|chain| - 1])| == |chain| - 1
    ensures |chain| <= |calls| + if call in calls then 1 else 2
  {
    var all := if call in calls then calls else calls + [call];
    forall i | 0 <= i < |chain| ensures chain[i].index in Indices(all) { assert chain[i] in all; }
    assert Indices(chain[..|chain| - 1]) <= Indices(all);
    IndexCount(all, Indices(chain[..|chain| - 1]));
  }

  lemma {:induction false} IndexCount(calls: seq<Call>, some: set<nat>)
    requires some <= Indices(calls)
    ensures |some| <= |calls|
  {
    if calls != [] {
      var front, last := calls[..|calls| - 1], calls[|calls| - 1].index;
      IndexCount(front, some - {last});
      assert last !in some ==> some - {last} == some;
    }
  }

  /** Two walks from the same call agree as far as both go; a complete one outlasts a delegated one. */
  lemma {:induction false} SameWalk(a: seq<Call>, b: seq<Call>, call: Call, calls: seq<Call>)
    requires IsChain(a, call, calls) && Complete(b, call, calls)
    requires Delegated(a[|a| - 1])
    ensures |a| < |b| && forall i :: 0 <= i < |a| ==> a[i] == b[i]
    decreases |a|
  {
    if |a| > 1 {
      var front := a[..|a| - 1];
      assert front[|front| - 1] == a[|a| - 2];
      SameWalk(front, b, call, calls);
      assert a[|a| - 2] == front[|a| - 2] == b[|a| - 2];
    }
  }

  lemma NoChainPastDeadEnd(chain: seq<Call>, call: Call, calls: seq<Call>)
    requires IsChain(chain, call, calls) && Delegated(chain[|chain| - 1])
    requires Parent(chain[|chain| - 1], calls).None?
    ensures forall other :: !Complete(other, call, calls)
  {
    forall other ensures !Complete(other, call, calls) {
      if Complete(other, call, calls) { WalkContinues(chain, other, call, calls); }
    }
  }

  lemma WalkContinues(a: seq<Call>, b: seq<Call>, call: Call, calls: seq<Call>)
    requires IsChain(a, call, calls) && Complete(b, call, calls) && Delegated(a[|a| - 1])
    ensures Parent(a[|a| - 1], calls).Some?
  {
    SameWalk(a, b, call, calls);
    assert Parent(b[|a| - 1], calls) == Some(b[|a|]);
  }

  lemma {:induction false} NoChainThroughCycle(chain: seq<Call>, call: Call, calls: seq<Call>)
    requires IsChain(chain, call, calls) && call in calls && UniqueIndices(calls)
    requires forall i :: 0 < i < |chain| ==> chain[i] in calls
    requires Delegated(chain[|chain| - 1])
    requires exists i :: 0 <= i < |chain| - 1 && chain[i].index == chain[|chain| - 1].index
    ensures forall other :: !Complete(other, call, calls)
  {
    var j :| 0 <= j < |chain| - 1 && chain[j].index == chain[|chain| - 1].index;
    assert chain[j] in calls && chain[|chain| - 1] in calls;
    forall other ensures !Complete(other, call, calls) {
      if Complete(other, call, calls) {
        SameWalk(chain, other, call, calls);
        assert other[j] == chain[j] && other[|chain| - 1] == chain[|chain| - 1];
        Periodic(other, call, calls, j, |chain| - 1, |other| - |chain|);
      }
    }
  }

  lemma {:induction false} Periodic(chain: seq<Call>, call: Call, calls: seq<Call>, j: nat, n: nat, m: nat)
    requires IsChain(chain, call, calls) && j < n && n + m < |chain| && chain[j] == chain[n]
    ensures chain[j + m] == chain[n + m]
  {
    if m > 0 { Periodic(chain, call, calls, j, n, m - 1); }
  }

  // ---------------------------------------------------------------- deletions

  function Created(tx: Transaction): set<Address> {
    set i | 0 <= i < |tx.calls| && !tx.calls[i].stateReverted && tx.calls[i].callType.Create? :: tx.calls[i].address
  }

  /** The fork rule: which committed SELFDESTRUCT deletes its account. */
  predicate DeletesUnderFork(tx: Transaction, time: nat, account: Address) {
    time < BSC_CANCUN_TIME || account in Created(tx)
  }

  predicate Destroys(c: Call) {
    c.suicide && !c.stateReverted
  }

  datatype Deletion = Deletion(account: Address, ordinal: nat)

  /** Deletions that the first n calls schedule for the transaction's end. */
  function ScheduledBy(tx: Transaction, time: nat, n: nat): Result<seq<Deletion>>
    requires n <= |tx.calls|
  {
    if n == 0 then Ok([])
    else
      var front :- ScheduledBy(tx, time, n - 1);
      var c := tx.calls[n - 1];
      if !Destroys(c) then Ok(front)
      else
        var account :- Context(c, tx.calls);
        if !DeletesUnderFork(tx, time, account) then Ok(front)
        else if tx.endOrdinal == 0 || tx.endOrdinal <= c.endOrdinal then Err("no reliable transaction-end ordinal")
        else Ok(front + [Deletion(account, tx.endOrdinal)])
  }

  function Scheduled(txs: seq<Transaction>, time: nat): Result<seq<Deletion>> {
    if txs == [] then Ok([])
    else
      var front :- Scheduled(txs[..|txs| - 1], time);
      var last := txs[|txs| - 1];
      if !last.status.Succeeded? then Ok(front)
      else
        var own :- ScheduledBy(last, time, |last.calls|);
        Ok(front + own)
  }

  predicate SystemDestroys(block: Block) {
    exists i :: 0 <= i < |block.systemCalls| && Destroys(block.systemCalls[i])
  }

  /** Every deletion of the block, one entry per deleting call. */
  function BlockDeletions(block: Block, time: nat): Result<seq<Deletion>> {
    var all :- Scheduled(block.transactions, time);
    if SystemDestroys(block) then Err("SELFDESTRUCT in system execution") else Ok(all)
  }

  /** The greatest ordinal per account. */
  function Greatest(ds: seq<Deletion>): map<Address, nat> {
    if ds == [] then map[]
    else
      var m, last := Greatest(ds[..|ds| - 1]), ds[|ds| - 1];
      if last.account in m && last.ordinal <= m[last.account] then m else m[last.account := last.ordinal]
  }

  lemma {:induction false} GreatestMeans(ds: seq<Deletion>, a: Address)
    ensures a in Greatest(ds) ==> Deletion(a, Greatest(ds)[a]) in ds
    ensures forall d :: d in ds && d.account == a ==> a in Greatest(ds) && d.ordinal <= Greatest(ds)[a]
  {
    if ds != [] {
      GreatestMeans(ds[..|ds| - 1], a);
      assert ds == ds[..|ds| - 1] + [ds[|ds| - 1]];
    }
  }

  lemma GreatestAppend(ds: seq<Deletion>, d: Deletion)
    ensures Greatest(ds + [d]) ==
            var m := Greatest(ds);
            if d.account in m && d.ordinal <= m[d.account] then m else m[d.account := d.ordinal]
  {
    assert (ds + [d])[..|ds|] == ds;
  }

  lemma GreatestMore(before: seq<Deletion>, prev: seq<Deletion>, d: Deletion)
    ensures Greatest(before + (prev + [d])) ==
            var m := Greatest(before + prev);
            m[d.account := if d.account in m && m[d.account] >= d.ordinal then m[d.account] else d.ordinal]
  {
    assert before + (prev + [d]) == (before + prev) + [d];
    GreatestAppend(before + prev, d);
    var m := Greatest(before + prev);
    assert d.account in m ==> m[d.account := m[d.account]] == m;
  }

  /** What the n-th call schedules, if anything. */
  method DeletionOf(tx: Transaction, time: nat, n: nat) returns (r: Result<Option<Deletion>>)
    requires n < |tx.calls| && ScheduledBy(tx, time, n).Ok?
    ensures r.Ok? <==> ScheduledBy(tx, time, n + 1).Ok?
    ensures r.Ok? && r.value.None? ==> ScheduledBy(tx, time, n + 1) == ScheduledBy(tx, time, n)
    ensures r.Ok? && r.value.Some? ==>
      ScheduledBy(tx, time, n + 1).value == ScheduledBy(tx, time, n).value + [r.value.value]
  {
    var c := tx.calls[n];
    if !Destroys(c) {
      return Ok(None);
    }
    var account := ExecutionAddress(c, tx.calls);
    if account.Err? {
      return Err(account.reason);
    }
    if !DeletesUnderFork(tx, time, account.value) {
      return Ok(None);
    }
    if tx.endOrdinal == 0 || tx.endOrdinal <= c.endOrdinal {
      return Err("no reliable transaction-end ordinal");
    }
    return Ok(Some(Deletion(account.value, tx.endOrdinal)));
  }

  method ScheduleInto(m0: map<Address, nat>, ghost before: seq<Deletion>, tx: Transaction, time: nat)
    returns (r: Result<map<Address, nat>>)
    requires m0 == Greatest(before)
    ensures r.Ok? <==> ScheduledBy(tx, time, |tx.calls|).Ok?
    ensures r.Ok? ==> r.value == Greatest(before + ScheduledBy(tx, time, |tx.calls|).value)
  {
    var m := m0;
    assert before + [] == before;
    for n := 0 to |tx.calls|
      invariant ScheduledBy(tx, time, n).Ok?
      invariant m == Greatest(before + ScheduledBy(tx, time, n).value)
    {
      var d := DeletionOf(tx, time, n);
      if d.Err? {
        ScheduledErr(tx, time, n + 1, |tx.calls|);
        return Err(d.reason);
      }
      if d.value.Some? {
        var account, end := d.value.value.account, d.value.value.ordinal;
        GreatestMore(before, ScheduledBy(tx, time, n).value, d.value.value);
        m := m[account := if account in m && m[account] >= end then m[account] else end];
      }
    }
    return Ok(m);
  }

  lemma {:induction false} ScheduledErr(tx: Transaction, time: nat, n: nat, k: nat)
    requires n <= k <= |tx.calls| && ScheduledBy(tx, time, n).Err?
    ensures ScheduledBy(tx, time, k).Err?
  {
    if n < k { ScheduledErr(tx, time, n, k - 1); }
  }

  lemma {:induction false} PrefixErr(txs: seq<Transaction>, time: nat, n: nat)
    requires n <= |txs| && Scheduled(txs[..n], time).Err?
    ensures Scheduled(txs, time).Err?
    decreases |txs|
  {
    if n == |txs| {
      assert txs[..n] == txs;
    } else {
      assert txs[..|txs| - 1][..n] == txs[..n];
      PrefixErr(txs[..|txs| - 1], time, n);
    }
  }

  method Deletions(block: Block, time: nat) returns (r: Result<map<Address, nat>>)
    ensures r.Ok? <==> BlockDeletions(block, time).Ok?
    ensures r.Ok? ==> r.value == Greatest(BlockDeletions(block, time).value)
    ensures r.Ok? ==> forall a :: a in r.value <==>
                      exists i :: 0 <= i < |block.transactions| && Wiped(block.transactions[i], time, a)
  {
    hide Wiped;
    var m: map<Address, nat> := map[];
    var txs := block.transactions;
    for i := 0 to |txs|
      invariant Scheduled(txs[..i], time).Ok?
      invariant m == Greatest(Scheduled(txs[..i], time).value)
    {
      assert txs[..i + 1][..i] == txs[..i];
      if txs[i].status.Succeeded? {
        var next := ScheduleInto(m, Scheduled(txs[..i], time).value, txs[i], time);
        if next.Err? {
          PrefixErr(txs, time, i + 1);
          return next;
        }
        m := next.value;
      }
    }
    assert txs[..|txs|] == txs;
    if exists i :: 0 <= i < |block.systemCalls| && Destroys(block.systemCalls[i]) {
      return Err("SELFDESTRUCT in system execution");
    }
    forall a ensures a in m <==> exists i :: 0 <= i < |txs| && Wiped(txs[i], time, a) { MapHoldsWiped(block, time, a); }
    return Ok(m);
  }

  /** The transaction deletes the account at its end. */
  predicate Deletes(tx: Transaction, time: nat, account: Address) {
    && tx.status.Succeeded?
    && DeletesUnderFork(tx, time, account)
    && exists j :: 0 <= j < |tx.calls| && DestroysIn(tx, j, account)
  }

  /** The j-th call destroys the account in whose context it runs. */
  predicate DestroysIn(tx: Transaction, j: nat, account: Address)
    requires j < |tx.calls|
  {
    Destroys(tx.calls[j]) && Context(tx.calls[j], tx.calls) == Ok(account)
  }

  lemma {:induction false} ScheduledMeans(tx: Transaction, time: nat, n: nat, d: Deletion)
    requires n <= |tx.calls| && ScheduledBy(tx, time, n).Ok?
    ensures d in ScheduledBy(tx, time, n).value <==>
            && d.ordinal == tx.endOrdinal
            && DeletesUnderFork(tx, time, d.account)
            && exists j :: 0 <= j < n && DestroysIn(tx, j, d.account)
  {
    if n > 0 {
      ScheduledMeans(tx, time, n - 1, d);
      if DestroysIn(tx, n - 1, d.account) {
        assert DeletesUnderFork(tx, time, d.account) ==>
          ScheduledBy(tx, time, n).value == ScheduledBy(tx, time, n - 1).value + [Deletion(d.account, tx.endOrdinal)];
      }
    }
  }

  lemma {:induction false} DeletionMeans(txs: seq<Transaction>, time: nat, d: Deletion)
    requires Scheduled(txs, time).Ok?
    ensures d in Scheduled(txs, time).value <==>
            exists i :: 0 <= i < |txs| && Deletes(txs[i], time, d.account) && d.ordinal == txs[i].endOrdinal
  {
    if txs != [] {
      var front, last := txs[..|txs| - 1], txs[|txs| - 1];
      DeletionMeans(front, time, d);
      if last.status.Succeeded? { ScheduledMeans(last, time, |last.calls|, d); }
      assert forall i :: 0 <= i < |front| ==> front[i] == txs[i];
      if d in Scheduled(front, time).value {
        var i :| 0 <= i < |front| && Deletes(front[i], time, d.account) && d.ordinal == front[i].endOrdinal;
        assert txs[i] == front[i];
      }
    }
  }

  /** An account is in the deletion map exactly when some successful transaction deletes
      it under the fork rule, and then maps to the greatest end ordinal of those. */
  lemma DeletionMapMeans(block: Block, time: nat, account: Address)
    requires BlockDeletions(block, time).Ok?
    ensures var m := Greatest(BlockDeletions(block, time).value);
            var txs := block.transactions;
            && (account in m <==> exists i :: 0 <= i < |txs| && Deletes(txs[i], time, account))
            && (account in m ==> exists i ::
                  0 <= i < |txs| && Deletes(txs[i], time, account) && txs[i].endOrdinal == m[account])
            && (account in m ==> forall i ::
                  0 <= i < |txs| && Deletes(txs[i], time, account) ==> txs[i].endOrdinal <= m[account])
  {
    var txs, ds := block.transactions, BlockDeletions(block, time).value;
    var m := Greatest(ds);
    GreatestMeans(ds, account);
    if account in m { DeletionMeans(txs, time, Deletion(account, m[account])); }
    forall i | 0 <= i < |txs| && Deletes(txs[i], time, account)
      ensures account in m && txs[i].endOrdinal <= m[account]
    {
      var d := Deletion(account, txs[i].endOrdinal);
      DeletionMeans(txs, time, d);
      assert d in ds;
    }
  }

  // ---------------------------------------------------------------- in the block's own fields

  /** p is the first call whose index is c's parent index, c's own index aside. */
  ghost predicate FirstParent(calls: seq<Call>, c: Call, p: Call) {
    exists n :: ParentAt(calls, c, n) && calls[n] == p
  }

  predicate ParentAt(calls: seq<Call>, c: Call, n: int) {
    && 0 <= n < |calls| && calls[n].index == c.parentIndex != c.index
    && forall m :: 0 <= m < n ==> calls[m].index != c.parentIndex
  }

  lemma {:induction false} ParentIs(c: Call, calls: seq<Call>, p: Call)
    ensures Parent(c, calls) == Some(p) <==> FirstParent(calls, c, p)
  {
    if calls != [] && !(calls[0].index == c.parentIndex != c.index) {
      ParentIs(c, calls[1..], p);
      if FirstParent(calls[1..], c, p) {
        var n :| ParentAt(calls[1..], c, n) && calls[1..][n] == p;
        assert forall m :: 0 < m < n + 1 ==> calls[m] == calls[1..][m - 1];
        assert ParentAt(calls, c, n + 1) && calls[n + 1] == p;
      }
      if FirstParent(calls, c, p) {
        var n :| ParentAt(calls, c, n) && calls[n] == p;
        assert ParentAt(calls[1..], c, n - 1) && calls[1..][n - 1] == p;
      }
    } else if calls != [] {
      assert ParentAt(calls, c, 0);
      assert forall n :: ParentAt(calls, c, n) ==> n == 0;
    }
  }

  /** A walk from c through delegated calls, no index among them twice, to a call that runs at
      account a in its own context. */
  ghost predicate Ancestry(walk: seq<Call>, c: Call, calls: seq<Call>, a: Address) {
    && walk != [] && walk[0] == c
    && var end := |walk| - 1;
       && walk[end].callType != Delegate && walk[end].callType != Callcode && walk[end].address == a
       && (forall i :: 0 <= i < end ==> walk[i].callType == Delegate || walk[i].callType == Callcode)
       && (forall i :: 0 <= i < end ==> FirstParent(calls, walk[i], walk[i + 1]))
       && forall i, j :: 0 <= i < j < end ==> walk[i].index != walk[j].index
  }

  /** The account whose context c runs in. */
  ghost predicate RunsAt(c: Call, calls: seq<Call>, a: Address) {
    exists walk :: Ancestry(walk, c, calls, a)
  }

  lemma DelegatedIs(c: Call)
    ensures Delegated(c) <==> c.callType == Delegate || c.callType == Callcode
  {
  }

  lemma {:induction false} ContextWalks(c: Call, calls: seq<Call>, visited: set<nat>) returns (walk: seq<Call>)
    requires Context(c, calls, visited).Ok?
    ensures Ancestry(walk, c, calls, Context(c, calls, visited).value)
    ensures forall i :: 0 <= i < |walk| - 1 ==> walk[i].index !in visited
    decreases Indices(calls) + {c.index} - visited
  {
    if !Delegated(c) {
      walk := [c];
    } else {
      var parent := Parent(c, calls).value;
      var rest := ContextWalks(parent, calls, visited + {c.index});
      ParentIs(c, calls, parent);
      walk := [c] + rest;
    }
  }

  lemma {:induction false} WalkedContext(walk: seq<Call>, c: Call, calls: seq<Call>, visited: set<nat>, a: Address)
    requires Ancestry(walk, c, calls, a)
    requires forall i :: 0 <= i < |walk| - 1 ==> walk[i].index !in visited
    ensures Context(c, calls, visited) == Ok(a)
    decreases |walk|
  {
    if |walk| > 1 {
      assert FirstParent(calls, walk[0], walk[1]);
      ParentIs(c, calls, walk[1]);
      var rest := walk[1..];
      assert forall i :: 0 <= i < |rest| ==> rest[i] == walk[i + 1];
      WalkedContext(rest, walk[1], calls, visited + {c.index}, a);
    }
  }

  /** The walk finds an account exactly when such an ancestry exists, and finds that account. */
  lemma ContextIs(c: Call, calls: seq<Call>, a: Address)
    ensures Context(c, calls) == Ok(a) <==> RunsAt(c, calls, a)
  {
    if Context(c, calls) == Ok(a) {
      var walk := ContextWalks(c, calls, {});
    }
    if walk :| Ancestry(walk, c, calls, a) { WalkedContext(walk, c, calls, {}, a); }
  }

  /** A SELFDESTRUCT that execution kept, of the account in whose context it ran. */
  ghost predicate Suicide(tx: Transaction, j: int, a: Address) {
    && tx.status == Succeeded && 0 <= j < |tx.calls|
    && tx.calls[j].suicide && !tx.calls[j].stateReverted && RunsAt(tx.calls[j], tx.calls, a)
  }

  /** A creation of the account that execution kept. */
  predicate CreatedAt(tx: Transaction, k: int, a: Address) {
    0 <= k < |tx.calls| && tx.calls[k].callType == Create && !tx.calls[k].stateReverted && tx.calls[k].address == a
  }

  /** From Cancun on only an account created by the same transaction is deleted. */
  ghost predicate Wiped(tx: Transaction, time: nat, a: Address) {
    && (exists j :: Suicide(tx, j, a))
    && (time >= 1_718_863_500 ==> exists k :: CreatedAt(tx, k, a))
  }

  lemma ForkRule(tx: Transaction, time: nat, a: Address)
    ensures DeletesUnderFork(tx, time, a) <==> (time >= 1_718_863_500 ==> exists k :: CreatedAt(tx, k, a))
  {
    if a in Created(tx) {
      var k :| 0 <= k < |tx.calls| && tx.calls[k].callType.Create? && !tx.calls[k].stateReverted
        && tx.calls[k].address == a;
      assert CreatedAt(tx, k, a);
    }
    if k :| CreatedAt(tx, k, a) { assert tx.calls[k].address in Created(tx); }
  }

  lemma WipedIs(tx: Transaction, time: nat, a: Address)
    ensures Deletes(tx, time, a) <==> Wiped(tx, time, a)
  {
    hide DeletesUnderFork, RunsAt, Context;
    ForkRule(tx, time, a);
    if Deletes(tx, time, a) {
      var j :| 0 <= j < |tx.calls| && DestroysIn(tx, j, a);
      ContextIs(tx.calls[j], tx.calls, a);
      assert Suicide(tx, j, a);
    }
    if j :| Suicide(tx, j, a) {
      ContextIs(tx.calls[j], tx.calls, a);
      assert tx.status == Succeeded ==> DestroysIn(tx, j, a);
    }
  }

  /** The deletion map in the block's own fields: an account is mapped exactly when a transaction
      wipes it, to the greatest end ordinal of those that do. */
  lemma MapHoldsWiped(block: Block, time: nat, a: Address)
    requires BlockDeletions(block, time).Ok?
    ensures var m, txs := Greatest(BlockDeletions(block, time).value), block.transactions;
            && (a in m <==> exists i :: 0 <= i < |txs| && Wiped(txs[i], time, a))
            && (a in m ==> exists i :: 0 <= i < |txs| && Wiped(txs[i], time, a) && txs[i].endOrdinal == m[a])
            && (a in m ==> forall i :: 0 <= i < |txs| && Wiped(txs[i], time, a) ==> txs[i].endOrdinal <= m[a])
  {
    hide Deletes, Wiped, BlockDeletions;
    DeletionMapMeans(block, time, a);
    var txs := block.transactions;
    forall i | 0 <= i < |txs| ensures Deletes(txs[i], time, a) <==> Wiped(txs[i], time, a) {
      WipedIs(txs[i], time, a);
    }
  }

  // ---------------------------------------------------------------- refusal

  /** Call j is a kept SELFDESTRUCT without a context, or one that wipes its account although the
      transaction does not end after it. */
  ghost predicate Unscheduled(tx: Transaction, time: nat, j: int) {
    && 0 <= j < |tx.calls| && tx.status == Succeeded && tx.calls[j].suicide && !tx.calls[j].stateReverted
    && forall a :: RunsAt(tx.calls[j], tx.calls, a) ==> Wiped(tx, time, a) && tx.endOrdinal <= tx.calls[j].endOrdinal
  }

  lemma UnscheduledIs(tx: Transaction, time: nat, j: nat)
    requires j < |tx.calls| && tx.status.Succeeded?
    ensures var context := Context(tx.calls[j], tx.calls);
            Unscheduled(tx, time, j) <==>
            && Destroys(tx.calls[j])
            && (context.Err?
                || (DeletesUnderFork(tx, time, context.value) && tx.endOrdinal <= tx.calls[j].endOrdinal))
  {
    hide RunsAt, Context, DeletesUnderFork;
    var c, context := tx.calls[j], Context(tx.calls[j], tx.calls);
    forall a ensures RunsAt(c, tx.calls, a) <==> context == Ok(a) { ContextIs(c, tx.calls, a); }
    if context.Ok? {
      ForkRule(tx, time, context.value);
      assert RunsAt(c, tx.calls, context.value);
      if Destroys(c) { assert Suicide(tx, j, context.value); }
    }
  }

  lemma {:induction false} ScheduledFails(tx: Transaction, time: nat, n: nat)
    requires n <= |tx.calls| && tx.status.Succeeded?
    ensures ScheduledBy(tx, time, n).Err? <==> exists j :: 0 <= j < n && Unscheduled(tx, time, j)
  {
    hide Unscheduled, Context, DeletesUnderFork;
    if n > 0 {
      ScheduledFails(tx, time, n - 1);
      UnscheduledIs(tx, time, n - 1);
    }
  }

  ghost predicate UnreliableEnd(tx: Transaction, time: nat) {
    exists j :: Unscheduled(tx, time, j)
  }

  lemma {:induction false} AllScheduledFails(txs: seq<Transaction>, time: nat)
    ensures Scheduled(txs, time).Err? <==> exists i :: 0 <= i < |txs| && UnreliableEnd(txs[i], time)
  {
    hide Unscheduled, ScheduledBy;
    if txs != [] {
      var front, last := txs[..|txs| - 1], txs[|txs| - 1];
      AllScheduledFails(front, time);
      assert forall i :: 0 <= i < |front| ==> front[i] == txs[i];
      if last.status.Succeeded? { ScheduledFails(last, time, |last.calls|); }
      UnscheduledBounds(last, time);
      assert txs == front + [last];
    }
  }

  lemma UnscheduledBounds(tx: Transaction, time: nat)
    ensures forall j :: Unscheduled(tx, time, j) ==> 0 <= j < |tx.calls| && tx.status == Succeeded
  {
  }

  /** Scheduling fails exactly for a kept SELFDESTRUCT of a system call, or of a transaction that
      lacks its context or an end ordinal behind it. */
  lemma DeletionsRefused(block: Block, time: nat)
    ensures var system, txs := block.systemCalls, block.transactions;
            BlockDeletions(block, time).Err? <==>
            || (exists i :: 0 <= i < |system| && system[i].suicide && !system[i].stateReverted)
            || exists i :: 0 <= i < |txs| && UnreliableEnd(txs[i], time)
  {
    hide UnreliableEnd;
    AllScheduledFails(block.transactions, time);
  }
}
