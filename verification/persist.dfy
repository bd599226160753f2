/** Which change records of a block survive execution, and the collector that
    pushes them into its four output lists. */
module Persist {
  import opened Words
  import opened Sequences
  import opened Trace

  // ---------------------------------------------------------------- survival rules

  function CallRecords(call: Call): seq<Change> {
    call.storageChanges + call.balanceChanges + call.nonceChanges + call.codeChanges
  }

  function CommittedRecords(calls: seq<Call>): seq<Change> {
    if calls == [] then []
    else
      var last := calls[|calls| - 1];
      CommittedRecords(calls[..|calls| - 1]) + if last.stateReverted then [] else CallRecords(last)
  }

  function Authorities(tx: Transaction): set<Address> {
    if !tx.setCode then {}
    else set i | 0 <= i < |tx.authorizations| && !tx.authorizations[i].discarded
                 && tx.authorizations[i].authority.Some? && tx.authorizations[i].authority.value != []
           :: tx.authorizations[i].authority.value
  }

  predicate GasReason(c: Change) {
    c.BalanceChange? && !c.reason.OtherReason?
  }

  function GasRecords(root: Call): seq<Change> {
    var balances: seq<Change> := root.balanceChanges;
    Filter(balances, GasReason)
  }

  /** The transaction's own nonce increment. */
  predicate SenderIncrement(tx: Transaction, c: Change) {
    c.NonceChange? && c.ordinal > 0 && c.address == tx.from && c.oldNonce == tx.nonce
    && tx.nonce < U64_MAX && c.newNonce == tx.nonce + 1
  }

  /** Position of the first sender increment of smallest ordinal, or |s|. */
  function SenderIndex(tx: Transaction, s: seq<Change>): (i: nat)
    ensures i <= |s|
    ensures i < |s| ==> SenderIncrement(tx, s[i])
    ensures i < |s| ==> forall j :: 0 <= j < |s| && SenderIncrement(tx, s[j]) ==>
      s[i].ordinal < s[j].ordinal || (s[i].ordinal == s[j].ordinal && i <= j)
    ensures i == |s| ==> forall j :: 0 <= j < |s| ==> !SenderIncrement(tx, s[j])
  {
    if s == [] then 0
    else
      var front, last := s[..|s| - 1], s[|s| - 1];
      var i := SenderIndex(tx, front);
      assert forall j :: 0 <= j < |front| ==> front[j] == s[j];
      if i < |front| then if SenderIncrement(tx, last) && last.ordinal < s[i].ordinal then |front| else i
      else if SenderIncrement(tx, last) then |front| else |s|
  }

  function Without<T>(s: seq<T>, i: nat): seq<T> {
    if i < |s| then s[..i] + s[i + 1..] else s
  }

  predicate BeforeExecution(root: Call, c: Change) {
    0 < c.ordinal < root.beginOrdinal
  }

  predicate AuthorityRecord(tx: Transaction, root: Call, c: Change) {
    BeforeExecution(root, c) && c.address in Authorities(tx)
  }

  function SenderRecord(tx: Transaction, root: Call): seq<Change> {
    var i := SenderIndex(tx, root.nonceChanges);
    if i < |root.nonceChanges| then [root.nonceChanges[i]] else []
  }

  function AuthorityNonces(tx: Transaction, root: Call): seq<Change> {
    var nonces: seq<Change> := root.nonceChanges;
    Filter(Without(nonces, SenderIndex(tx, nonces)), c => AuthorityRecord(tx, root, c))
  }

  function AuthorityCodes(tx: Transaction, root: Call): seq<Change> {
    var codes: seq<Change> := root.codeChanges;
    Filter(codes, c => AuthorityRecord(tx, root, c))
  }

  predicate AmbiguousBoundary(tx: Transaction, root: Call) {
    Authorities(tx) != {} && root.beginOrdinal == 0
  }

  /** What a transaction leaves behind, no-op records included. */
  function Surviving(tx: Transaction): Result<seq<Change>> {
    if tx.status.Succeeded? then Ok(CommittedRecords(tx.calls))
    else if tx.calls == [] then Ok([])
    else
      var root := tx.calls[0];
      if AmbiguousBoundary(tx, root) then Err("no authorization/execution ordinal boundary")
      else Ok(GasRecords(root) + SenderRecord(tx, root)
              + AuthorityNonces(tx, root) + AuthorityCodes(tx, root))
  }

  function SurvivingAll(txs: seq<Transaction>): Result<seq<Change>> {
    if txs == [] then Ok([])
    else
      var front :- SurvivingAll(txs[..|txs| - 1]);
      var last :- Surviving(txs[|txs| - 1]);
      Ok(front + last)
  }

  /** Every record of the block that survives execution, in the mapper's visiting order. */
  function BlockRecords(block: Block): Result<seq<Change>> {
    var txs :- SurvivingAll(block.transactions);
    Ok(CommittedRecords(block.systemCalls) + block.balanceChanges + block.codeChanges + txs)
  }

  // ---------------------------------------------------------------- the collector

  datatype StateChanges = StateChanges(
    storage: seq<Change>, balances: seq<Change>, nonces: seq<Change>, codes: seq<Change>)

  /** An empty filter selects every account. */
  predicate Matches(filter: set<Address>, a: Address) {
    filter == {} || a in filter
  }

  predicate Kept(filter: set<Address>, c: Change) {
    Matches(filter, c.address) && !NoOp(c)
  }

  function Selects(filter: set<Address>, kind: Kind): Change -> bool {
    (c: Change) => Kept(filter, c) && KindOf(c) == kind
  }

  /** The records of s that the collector keeps, split by kind and appended to out. */
  function Extend(out: StateChanges, filter: set<Address>, s: seq<Change>): StateChanges {
    StateChanges(
      out.storage + Filter(s, Selects(filter, StorageKind)),
      out.balances + Filter(s, Selects(filter, BalanceKind)),
      out.nonces + Filter(s, Selects(filter, NonceKind)),
      out.codes + Filter(s, Selects(filter, CodeKind)))
  }

  lemma ExtendConcat(out: StateChanges, filter: set<Address>, a: seq<Change>, b: seq<Change>)
    ensures Extend(Extend(out, filter, a), filter, b) == Extend(out, filter, a + b)
  {
    hide Filter, Selects;
    FilterConcat(a, b, Selects(filter, StorageKind));
    FilterConcat(a, b, Selects(filter, BalanceKind));
    FilterConcat(a, b, Selects(filter, NonceKind));
    FilterConcat(a, b, Selects(filter, CodeKind));
  }

  lemma ExtendNothing(out: StateChanges, filter: set<Address>)
    ensures Extend(out, filter, []) == out
  {
  }

  function Added(out: StateChanges, c: Change): StateChanges {
    match c
    case StorageChange(_, _, _, _, _) => out.(storage := out.storage + [c])
    case BalanceChange(_, _, _, _, _) => out.(balances := out.balances + [c])
    case NonceChange(_, _, _, _) => out.(nonces := out.nonces + [c])
    case CodeChange(_, _, _, _, _, _) => out.(codes := out.codes + [c])
  }

  lemma ExtendOne(out: StateChanges, filter: set<Address>, c: Change)
    ensures !Kept(filter, c) ==> Extend(out, filter, [c]) == out
    ensures Kept(filter, c) ==> Extend(out, filter, [c]) == Added(out, c)
  {
    assert [c] == [] + [c];
    FilterAppend([], c, Selects(filter, StorageKind));
    FilterAppend([], c, Selects(filter, BalanceKind));
    FilterAppend([], c, Selects(filter, NonceKind));
    FilterAppend([], c, Selects(filter, CodeKind));
  }

  lemma ExtendFour(out: StateChanges, filter: set<Address>, a: seq<Change>, b: seq<Change>, c: seq<Change>,
                   d: seq<Change>)
    ensures Extend(Extend(Extend(Extend(out, filter, a), filter, b), filter, c), filter, d)
            == Extend(out, filter, a + b + c + d)
  {
    ExtendConcat(out, filter, a, b);
    ExtendConcat(out, filter, a + b, c);
    ExtendConcat(out, filter, a + b + c, d);
  }

  const NOTHING := StateChanges([], [], [], [])

  function Sorted(out: StateChanges): StateChanges {
    StateChanges(SortBy(out.storage, OrdinalOf), SortBy(out.balances, OrdinalOf),
                 SortBy(out.nonces, OrdinalOf), SortBy(out.codes, OrdinalOf))
  }

  class Collector {
    const filter: set<Address>
    var out: StateChanges

    constructor (filter: set<Address>)
      ensures this.filter == filter && out == NOTHING
    {
      this.filter := filter;
      out := NOTHING;
    }

    /** A sink call: filters on the account and appends to the list of the record's kind. */
    method Push(c: Change)
      requires !NoOp(c)
      modifies this`out
      ensures out == Extend(old(out), filter, [c])
    {
      ExtendOne(out, filter, c);
      if !Matches(filter, c.address) { return; }
      out := Added(out, c);
    }

    /** Pushes the records that satisfy p and are not no-ops. */
    method EmitMatching(s: seq<Change>, p: Change -> bool)
      modifies this`out
      ensures out == Extend(old(out), filter, Filter(s, p))
    {
      ExtendNothing(out, filter);
      for i := 0 to |s|
        invariant out == Extend(old(out), filter, Filter(s[..i], p))
      {
        assert s[..i + 1] == s[..i] + [s[i]];
        FilterAppend(s[..i], s[i], p);
        ExtendConcat(old(out), filter, Filter(s[..i], p), [s[i]]);
        ExtendOne(out, filter, s[i]);
        if p(s[i]) && !NoOp(s[i]) { Push(s[i]); }
      }
      assert s[..|s|] == s;
    }

    method EmitAll(s: seq<Change>)
      modifies this`out
      ensures out == Extend(old(out), filter, s)
    {
      EmitMatching(s, c => true);
      FullFilter(s, c => true);
    }

    method EmitCallAll(call: Call)
      modifies this`out
      ensures out == Extend(old(out), filter, CallRecords(call))
    {
      EmitAll(call.storageChanges);
      EmitAll(call.balanceChanges);
      EmitAll(call.nonceChanges);
      EmitAll(call.codeChanges);
      ExtendConcat(old(out), filter, call.storageChanges, call.balanceChanges);
      ExtendConcat(old(out), filter, call.storageChanges + call.balanceChanges, call.nonceChanges);
      ExtendConcat(old(out), filter, call.storageChanges + call.balanceChanges + call.nonceChanges, call.codeChanges);
    }

    method EmitCommitted(calls: seq<Call>)
      modifies this`out
      ensures out == Extend(old(out), filter, CommittedRecords(calls))
    {
      for i := 0 to |calls|
        invariant out == Extend(old(out), filter, CommittedRecords(calls[..i]))
      {
        assert calls[..i + 1][..i] == calls[..i];
        ExtendConcat(old(out), filter, CommittedRecords(calls[..i]), CallRecords(calls[i]));
        if !calls[i].stateReverted {
          EmitCallAll(calls[i]);
        } else {
          assert CommittedRecords(calls[..i]) + [] == CommittedRecords(calls[..i]);
        }
      }
      assert calls[..|calls|] == calls;
    }

    method CollectTransaction(tx: Transaction) returns (r: Result<()>)
      modifies this`out
      ensures r.Ok? <==> Surviving(tx).Ok?
      ensures r.Ok? ==> out == Extend(old(out), filter, Surviving(tx).value)
    {
      if tx.status.Succeeded? {
        EmitCommitted(tx.calls);
        return Ok(());
      }
      if tx.calls == [] {
        return Ok(());
      }
      var root := tx.calls[0];
      EmitMatching(root.balanceChanges, GasReason);
      var sender := SenderIndex(tx, root.nonceChanges);
      if sender < |root.nonceChanges| {
        Push(root.nonceChanges[sender]);
      } else {
        ExtendNothing(out, filter);
      }
      ExtendFour(old(out), filter, GasRecords(root), SenderRecord(tx, root),
                 AuthorityNonces(tx, root), AuthorityCodes(tx, root));
      if Authorities(tx) != {} {
        if root.beginOrdinal == 0 {
          return Err("no authorization/execution ordinal boundary");
        }
        // every nonce record but the sender's, which was emitted above
        EmitMatching(Without(root.nonceChanges, sender), c => AuthorityRecord(tx, root, c));
        EmitMatching(root.codeChanges, c => AuthorityRecord(tx, root, c));
      } else {
        NoAuthorityRecords(tx, root);
        ExtendNothing(out, filter);
      }
      return Ok(());
    }

    method EmitTransactions(txs: seq<Transaction>) returns (r: Result<()>)
      modifies this`out
      ensures r.Ok? <==> SurvivingAll(txs).Ok?
      ensures r.Ok? ==> out == Extend(old(out), filter, SurvivingAll(txs).value)
    {
      ExtendNothing(out, filter);
      for i := 0 to |txs|
        invariant SurvivingAll(txs[..i]).Ok?
        invariant out == Extend(old(out), filter, SurvivingAll(txs[..i]).value)
      {
        assert txs[..i + 1][..i] == txs[..i];
        var t := CollectTransaction(txs[i]);
        if t.Err? {
          SurvivingPrefixes(txs, i + 1);
          return t;
        }
        ExtendConcat(old(out), filter, SurvivingAll(txs[..i]).value, Surviving(txs[i]).value);
      }
      assert txs[..|txs|] == txs;
      return Ok(());
    }

    method CollectBlock(block: Block) returns (r: Result<()>)
      modifies this`out
      ensures r.Ok? <==> BlockRecords(block).Ok?
      ensures r.Ok? ==> out == Extend(old(out), filter, BlockRecords(block).value)
    {
      EmitCommitted(block.systemCalls);
      EmitAll(block.balanceChanges);
      EmitAll(block.codeChanges);
      r := EmitTransactions(block.transactions);
      if r.Ok? {
        ExtendFour(old(out), filter, CommittedRecords(block.systemCalls), block.balanceChanges,
                   block.codeChanges, SurvivingAll(block.transactions).value);
      }
    }
  }

  lemma {:induction false} NoAuthorityRecords(tx: Transaction, root: Call)
    requires Authorities(tx) == {}
    ensures AuthorityNonces(tx, root) == [] && AuthorityCodes(tx, root) == []
  {
    var nonces: seq<Change>, codes: seq<Change> := root.nonceChanges, root.codeChanges;
    EmptyFilter(Without(nonces, SenderIndex(tx, nonces)), c => AuthorityRecord(tx, root, c));
    EmptyFilter(codes, c => AuthorityRecord(tx, root, c));
  }

  lemma {:induction false} FullFilter<T>(s: seq<T>, p: T -> bool)
    requires forall i :: 0 <= i < |s| ==> p(s[i])
    ensures Filter(s, p) == s
  {
    if s != [] {
      FullFilter(s[..|s| - 1], p);
      assert s == s[..|s| - 1] + [s[|s| - 1]];
    }
  }

  lemma {:induction false} EmptyFilter<T>(s: seq<T>, p: T -> bool)
    requires forall i :: 0 <= i < |s| ==> !p(s[i])
    ensures Filter(s, p) == []
  {
    if s != [] { EmptyFilter(s[..|s| - 1], p); }
  }

  lemma {:induction false} SurvivingPrefixes(txs: seq<Transaction>, n: nat)
    requires n <= |txs|
    requires SurvivingAll(txs[..n]).Err?
    ensures SurvivingAll(txs).Err?
    decreases |txs|
  {
    if n == |txs| {
      assert txs[..n] == txs;
    } else {
      var front := txs[..|txs| - 1];
      assert front[..n] == txs[..n];
      SurvivingPrefixes(front, n);
    }
  }

  /** Collects, filters and sorts a whole block. */
  method Collect(filter: set<Address>, block: Block) returns (r: Result<StateChanges>)
    ensures r.Ok? <==> BlockRecords(block).Ok?
    ensures r.Ok? ==> r.value == Sorted(Extend(NOTHING, filter, BlockRecords(block).value))
  {
    var collector := new Collector(filter);
    var done := collector.CollectBlock(block);
    if done.Err? {
      return Err(done.reason);
    }
    return Ok(Sorted(collector.out));
  }
}
