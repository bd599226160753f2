/** Failed and reverted transactions: what the emitted records mean. */
module FailedTransactions {
  import opened Sequences
  import opened Trace
  import opened Persist
  import opened Replay

  /** Everything the root call recorded before execution began: the sender's increment
      and the authorization list. */
  function PreExecution(root: Call): seq<Change> {
    var nonces: seq<Change>, codes: seq<Change> := root.nonceChanges, root.codeChanges;
    Filter(nonces + codes, c => BeforeExecution(root, c))
  }

  function Emitted(tx: Transaction): seq<Change>
    requires Surviving(tx).Ok?
  {
    Filter(Surviving(tx).value, c => !NoOp(c))
  }

  /** A failed trace as the producers write it: accepted authorities come with an ordinal
      boundary, a recorded sender increment precedes it, everything else before it belongs to
      accepted authorities, and nothing of the sender's account listed earlier ties with the
      increment. */
  ghost predicate FailedTrace(tx: Transaction) {
    && !tx.status.Succeeded?
    && tx.calls != []
    && var root := tx.calls[0];
       var nonces: seq<Change>, codes: seq<Change> := root.nonceChanges, root.codeChanges;
       var i := SenderIndex(tx, nonces);
       && !AmbiguousBoundary(tx, root)
       && (i < |nonces| ==> BeforeExecution(root, nonces[i]))
       && (forall j :: 0 <= j < |nonces| && j != i && BeforeExecution(root, nonces[j]) ==>
             nonces[j].address in Authorities(tx))
       && (forall j :: 0 <= j < |codes| && BeforeExecution(root, codes[j]) ==> codes[j].address in Authorities(tx))
       && (forall j :: 0 <= j < i < |nonces| && BeforeExecution(root, nonces[j]) && nonces[j].address == tx.from ==>
             nonces[j].ordinal != nonces[i].ordinal)
  }

  lemma {:induction false} FilterOnly<T>(s: seq<T>, p: T -> bool)
    ensures multiset(Filter(s, p)) <= multiset(s)
  {
    if s != [] {
      FilterOnly(s[..|s| - 1], p);
      assert s == s[..|s| - 1] + [s[|s| - 1]];
    }
  }

  lemma WithoutMultiset<T>(s: seq<T>, i: nat)
    requires i < |s|
    ensures multiset(Without(s, i)) + multiset{s[i]} == multiset(s)
  {
    assert s == s[..i] + [s[i]] + s[i + 1..];
  }

  /** No storage is emitted, and only gas-reason balances. */
  lemma FailedKinds(tx: Transaction, c: Change)
    requires !tx.status.Succeeded? && tx.calls != [] && Surviving(tx).Ok?
    requires c in Emitted(tx)
    ensures !c.StorageChange? && (c.BalanceChange? ==> GasReason(c))
  {
    FilterMember(Surviving(tx).value, c => !NoOp(c), c);
    FailedMember(tx, c);
  }

  lemma NoncesOnce(tx: Transaction, root: Call)
    ensures var nonces: seq<Change> := root.nonceChanges;
            multiset(SenderRecord(tx, root)) + multiset(AuthorityNonces(tx, root)) <= multiset(nonces)
  {
    var nonces: seq<Change> := root.nonceChanges;
    var i := SenderIndex(tx, nonces);
    FilterOnly(Without(nonces, i), c => AuthorityRecord(tx, root, c));
    if i < |nonces| { WithoutMultiset(nonces, i); }
  }

  lemma GasOnce(root: Call)
    ensures var balances: seq<Change> := root.balanceChanges; multiset(GasRecords(root)) <= multiset(balances)
  {
    var balances: seq<Change> := root.balanceChanges;
    FilterOnly(balances, GasReason);
  }

  lemma CodesOnce(tx: Transaction, root: Call)
    ensures var codes: seq<Change> := root.codeChanges; multiset(AuthorityCodes(tx, root)) <= multiset(codes)
  {
    var codes: seq<Change> := root.codeChanges;
    FilterOnly(codes, c => AuthorityRecord(tx, root, c));
  }

  lemma PartsOnce(a: seq<Change>, b: seq<Change>, c: seq<Change>, d: seq<Change>,
                  rest: seq<Change>, x: seq<Change>, y: seq<Change>, z: seq<Change>)
    requires multiset(a) <= multiset(x) && multiset(b) + multiset(c) <= multiset(y) && multiset(d) <= multiset(z)
    ensures multiset(a + b + c + d) <= multiset(rest + x + y + z)
  {
  }

  /** No record of the root call is emitted twice. */
  lemma FailedOnce(tx: Transaction)
    requires !tx.status.Succeeded? && tx.calls != [] && Surviving(tx).Ok?
    ensures multiset(Emitted(tx)) <= multiset(CallRecords(tx.calls[0]))
  {
    var root := tx.calls[0];
    FilterOnly(Surviving(tx).value, c => !NoOp(c));
    GasOnce(root);
    NoncesOnce(tx, root);
    CodesOnce(tx, root);
    PartsOnce(GasRecords(root), SenderRecord(tx, root), AuthorityNonces(tx, root), AuthorityCodes(tx, root),
              root.storageChanges, root.balanceChanges, root.nonceChanges, root.codeChanges);
  }

  lemma FailedMember(tx: Transaction, c: Change)
    requires !tx.status.Succeeded? && tx.calls != [] && Surviving(tx).Ok?
    ensures var root := tx.calls[0];
            var nonces: seq<Change>, codes: seq<Change> := root.nonceChanges, root.codeChanges;
            var i := SenderIndex(tx, nonces);
            c in Surviving(tx).value <==>
            || (c in root.balanceChanges && GasReason(c))
            || (i < |nonces| && c == nonces[i])
            || (c in Without(nonces, i) && AuthorityRecord(tx, root, c))
            || (c in codes && AuthorityRecord(tx, root, c))
  {
    var root := tx.calls[0];
    var nonces: seq<Change>, codes: seq<Change> := root.nonceChanges, root.codeChanges;
    var balances: seq<Change> := root.balanceChanges;
    FilterMember(balances, GasReason, c);
    FilterMember(Without(nonces, SenderIndex(tx, nonces)), c => AuthorityRecord(tx, root, c), c);
    FilterMember(codes, c => AuthorityRecord(tx, root, c), c);
  }

  lemma {:induction false} FilterSame<T>(s: seq<T>, p: T -> bool, q: T -> bool)
    requires forall j :: 0 <= j < |s| ==> p(s[j]) == q(s[j])
    ensures Filter(s, p) == Filter(s, q)
  {
    if s != [] { FilterSame(s[..|s| - 1], p, q); }
  }

  /** Moving x to the front changes no latest match when nothing it passes ties with it. */
  lemma LatestMoved<T>(a: seq<T>, x: T, b: seq<T>, ord: T -> nat, p: T -> bool)
    requires p(x) ==> forall y :: y in a && p(y) ==> ord(y) != ord(x)
    ensures Latest([x] + (a + b), ord, p) == Latest(a + ([x] + b), ord, p)
  {
    LatestConcat([x], a + b, ord, p);
    LatestConcat(a, b, ord, p);
    LatestConcat(a, [x] + b, ord, p);
    LatestConcat([x], b, ord, p);
  }

  lemma FilterMiddle<T>(a: seq<T>, x: T, b: seq<T>, p: T -> bool)
    requires p(x)
    ensures Filter(a + ([x] + b), p) == Filter(a, p) + ([x] + Filter(b, p))
  {
    hide Filter;
    FilterConcat(a, [x] + b, p);
    FilterConcat([x], b, p);
    FilterOne(x, p);
  }

  lemma FilterAround<T>(s: seq<T>, i: nat, p: T -> bool)
    requires i < |s| && p(s[i])
    ensures var a, b := Filter(s[..i], p), Filter(s[i + 1..], p);
            Filter(Without(s, i), p) == a + b && Filter(s, p) == a + ([s[i]] + b)
  {
    hide Filter;
    FilterConcat(s[..i], s[i + 1..], p);
    FilterMiddle(s[..i], s[i], s[i + 1..], p);
    assert s[..i] + ([s[i]] + s[i + 1..]) == s;
  }

  lemma FilterOne<T>(x: T, p: T -> bool)
    requires p(x)
    ensures Filter([x], p) == [x]
  {
  }

  /** The surviving nonces besides the sender's increment are the other pre-execution ones. */
  lemma OtherNonces(tx: Transaction, root: Call, before: Change -> bool)
    requires FailedTrace(tx) && root == tx.calls[0] && before == (c => BeforeExecution(root, c))
    ensures var nonces: seq<Change> := root.nonceChanges;
            AuthorityNonces(tx, root) == Filter(Without(nonces, SenderIndex(tx, nonces)), before)
  {
    hide Filter, SenderIndex;
    var nonces: seq<Change> := root.nonceChanges;
    FilterSame(Without(nonces, SenderIndex(tx, nonces)), c => AuthorityRecord(tx, root, c), before);
  }

  lemma LatestNonce(tx: Transaction, root: Call, before: Change -> bool, k: Key)
    requires FailedTrace(tx) && root == tx.calls[0] && before == (c => BeforeExecution(root, c))
    ensures var nonces: seq<Change> := root.nonceChanges;
            LastWrite(SenderRecord(tx, root) + AuthorityNonces(tx, root), k) == LastWrite(Filter(nonces, before), k)
  {
    var nonces: seq<Change> := root.nonceChanges;
    var i := SenderIndex(tx, nonces);
    OtherNonces(tx, root, before);
    if i < |nonces| {
      var a, b, p := Filter(nonces[..i], before), Filter(nonces[i + 1..], before), (c: Change) => Writes(c, k);
      FilterAround(nonces, i, before);
      forall y | p(nonces[i]) && y in a && p(y) ensures y.ordinal != nonces[i].ordinal {
        FilterMember(nonces[..i], before, y);
      }
      LatestMoved(a, nonces[i], b, OrdinalOf, p);
    } else {
      assert SenderRecord(tx, root) + AuthorityNonces(tx, root) == AuthorityNonces(tx, root);
    }
  }

  /** Replaying what a failed transaction emits equals applying only its pre-execution phase:
      nonces and codes as the authorization list left them, storage untouched. */
  lemma FailedTransactionRollsBack(tx: Transaction, s: State, k: Key)
    requires FailedTrace(tx) && !k.Balance?
    requires NoOpsCurrent(s, Timeline(PreExecution(tx.calls[0]), []), {k.account})
    ensures Surviving(tx).Ok?
    ensures Read(Run(s, Timeline(Emitted(tx), [])), k) == Read(Run(s, Timeline(PreExecution(tx.calls[0]), [])), k)
    ensures k.Slot? ==> Read(Run(s, Timeline(Emitted(tx), [])), k) == Read(s, k)
  {
    var before := PreExecution(tx.calls[0]);
    EmittedNoOps(tx, s, k);
    ReplayedValue(s, Emitted(tx), [], {k.account}, k);
    ReplayedValue(s, before, [], {k.account}, k);
    EmittedLastWrite(tx, k);
    if k.Slot? {
      forall c | c in before ensures !Writes(c, k) { PreExecutionMember(tx.calls[0], c); }
    }
  }

  lemma PreExecutionMember(root: Call, c: Change)
    ensures c in PreExecution(root) ==> BeforeExecution(root, c) && !c.StorageChange? && !c.BalanceChange?
    ensures var nonces: seq<Change>, codes: seq<Change> := root.nonceChanges, root.codeChanges;
            c in PreExecution(root) <==> c in nonces + codes && BeforeExecution(root, c)
  {
    var nonces: seq<Change>, codes: seq<Change> := root.nonceChanges, root.codeChanges;
    FilterMember(nonces + codes, c => BeforeExecution(root, c), c);
  }

  /** A failed transaction emits no record that changes nothing. */
  lemma EmittedNoOps(tx: Transaction, s: State, k: Key)
    requires FailedTrace(tx)
    ensures NoOpsCurrent(s, Timeline(Emitted(tx), []), {k.account})
  {
    var events, live := Timeline(Emitted(tx), []), (c: Change) => !NoOp(c);
    SortBySorts(Records(Emitted(tx)) + Wipes([]), At);
    forall i | 0 <= i < |events| && events[i].Record? ensures !NoOp(events[i].change) {
      assert events[i] in events;
      RecordsMember(Emitted(tx), events[i]);
      FilterMember(Surviving(tx).value, live, events[i].change);
    }
  }

  lemma NoGasWrite(root: Call, k: Key)
    requires !k.Balance?
    ensures LastWrite(GasRecords(root), k).None?
  {
    var balances: seq<Change> := root.balanceChanges;
    forall c | c in GasRecords(root) ensures !Writes(c, k) { FilterMember(balances, GasReason, c); }
  }

  lemma LastWriteOfTwo(a: seq<Change>, b: seq<Change>, c: seq<Change>, d: seq<Change>, k: Key)
    requires LastWrite(a, k) == LastWrite(c, k) && LastWrite(b, k) == LastWrite(d, k)
    ensures LastWrite(a + b, k) == LastWrite(c + d, k)
  {
    var p := (c: Change) => Writes(c, k);
    LatestConcat(a, b, OrdinalOf, p);
    LatestConcat(c, d, OrdinalOf, p);
  }

  /** Gas records and no-ops decide no nonce and no code. */
  lemma EmittedWrites(tx: Transaction, root: Call, k: Key)
    requires FailedTrace(tx) && root == tx.calls[0] && !k.Balance?
    ensures LastWrite(Emitted(tx), k)
            == LastWrite(SenderRecord(tx, root) + AuthorityNonces(tx, root) + AuthorityCodes(tx, root), k)
  {
    hide Filter, Latest;
    var gas, rest := GasRecords(root), SenderRecord(tx, root) + AuthorityNonces(tx, root) + AuthorityCodes(tx, root);
    LatestFilter(Surviving(tx).value, OrdinalOf, (c: Change) => Writes(c, k), (c: Change) => !NoOp(c));
    assert Surviving(tx).value == gas + rest;
    assert [] + rest == rest;
    NoGasWrite(root, k);
    LastWriteOfTwo(gas, rest, [], rest, k);
  }

  /** The last effective write to k is the one the pre-execution phase left. */
  lemma EmittedLastWrite(tx: Transaction, k: Key)
    requires FailedTrace(tx) && !k.Balance?
    ensures LastWrite(Emitted(tx), k) == LastWrite(PreExecution(tx.calls[0]), k)
  {
    var root := tx.calls[0];
    var nonces: seq<Change>, codes: seq<Change> := root.nonceChanges, root.codeChanges;
    var before := (c: Change) => BeforeExecution(root, c);
    EmittedWrites(tx, root, k);
    LatestNonce(tx, root, before, k);
    FilterSame(codes, c => AuthorityRecord(tx, root, c), before);
    FilterConcat(nonces, codes, before);
    LastWriteOfTwo(SenderRecord(tx, root) + AuthorityNonces(tx, root), AuthorityCodes(tx, root),
                   Filter(nonces, before), Filter(codes, before), k);
  }

  lemma {:induction false} RecordsMember(cs: seq<Change>, e: Event)
    ensures e in Records(cs) <==> e.Record? && e.change in cs
  {
    if cs != [] {
      RecordsMember(cs[..|cs| - 1], e);
      assert cs == cs[..|cs| - 1] + [cs[|cs| - 1]];
    }
  }
}
