/** What a patch holds, said of the block's own fields: every row, every lifecycle mark, and the
    columns that link one patch to the next. */
module Patches {
  import opened Words
  import opened Sequences
  import opened Trace
  import opened Lifecycle
  import opened Persist
  import opened Replay
  import opened Projection
  import opened Survival
  import EndToEnd
  import Interval

  /** The row a record leaves when nothing comes after it. */
  function Written(c: Change): Row {
    match c
    case StorageChange(a, key, _, next, o) => Row(Slot(a, BigEndian(key)), Num(BigEndian(next)), o)
    case BalanceChange(a, _, next, _, o) => Row(Balance(a), Num(BigEndian(next)), o)
    case NonceChange(a, _, next, o) => Row(Nonce(a), Num(next), o)
    case CodeChange(a, _, _, hash, code, o) =>
      Row(Code(a), CodeOf(if hash == [] then EMPTY_CODE_HASH else hash, code), o)
  }

  /** The row a deletion leaves in a field. */
  function Emptied(k: Key, o: nat): Row {
    Row(k, if k.Code? then CodeOf(EMPTY_CODE_HASH, []) else Num(0), o)
  }

  lemma WrittenIs(c: Change)
    ensures RowOf(c) == Written(c)
  {
  }

  /** The record at place p is a wanted write to k. */
  predicate WritesAt(filter: set<Address>, block: Block, p: Place, k: Key) {
    Wanted(filter, block, p) && Written(RecordAt(block, p)).key == k
  }

  /** The last of the wanted writes to k, by ordinal and then by position in the block. */
  ghost predicate LastAt(filter: set<Address>, block: Block, p: Place, k: Key) {
    WritesAt(filter, block, p, k)
      && forall q :: WritesAt(filter, block, q, k) ==> q == p || InOrder(block, q, p)
  }

  /** A transaction that ends at ordinal o wipes the account. */
  ghost predicate WipedAt(block: Block, a: Address, o: nat)
    requires Dated(block)
  {
    var txs := block.transactions;
    exists i :: 0 <= i < |txs| && Wiped(txs[i], block.header.value.timestamp.value.seconds, a) && txs[i].endOrdinal == o
  }

  ghost predicate LastWipedAt(block: Block, a: Address, o: nat)
    requires Dated(block)
  {
    WipedAt(block, a, o) && forall n: nat :: WipedAt(block, a, n) ==> n <= o
  }

  // ---------------------------------------------------------------- the last write

  lemma {:induction false} LatestIndex(s: seq<Change>, p: Change -> bool) returns (i: nat)
    requires Latest(s, OrdinalOf, p).Some?
    ensures i < |s| && p(s[i]) && Latest(s, OrdinalOf, p) == Some(s[i])
    ensures forall j :: 0 <= j < |s| && p(s[j]) ==>
            s[j].ordinal < s[i].ordinal || (s[j].ordinal == s[i].ordinal && j <= i)
  {
    var n := |s| - 1;
    var best := Latest(s[..n], OrdinalOf, p);
    if p(s[n]) && (best.None? || best.value.ordinal <= s[n].ordinal) {
      i := n;
      forall j | 0 <= j < n && p(s[j]) ensures s[j].ordinal <= s[n].ordinal { assert s[j] in s[..n]; }
    } else {
      i := LatestIndex(s[..n], p);
      assert forall j :: 0 <= j < n ==> s[..n][j] == s[j];
    }
  }

  lemma WritesIs(filter: set<Address>, block: Block, p: Place, k: Key)
    requires Survives(block, p) && k.account in filter
    ensures WritesAt(filter, block, p, k) <==> Writes(RecordAt(block, p), k)
  {
    AltersIs(RecordAt(block, p));
    WrittenIs(RecordAt(block, p));
  }

  /** The last write of the replay stands at the last wanted place. */
  lemma LastPlace(filter: set<Address>, block: Block, k: Key) returns (last: Place)
    requires BlockRecords(block).Ok? && k.account in filter
    ensures var w := LastWrite(BlockRecords(block).value, k);
            && (w.None? ==> forall p :: !WritesAt(filter, block, p, k))
            && (w.Some? ==> LastAt(filter, block, last, k) && RecordAt(block, last) == w.value)
  {
    hide Survives, RecordAt, Before, WritesAt;
    var records := BlockRecords(block).value;
    var all := SurvivingPlaces(block);
    forall p | Survives(block, p) ensures WritesAt(filter, block, p, k) <==> Writes(RecordAt(block, p), k) {
      WritesIs(filter, block, p, k);
    }
    forall p | WritesAt(filter, block, p, k) ensures Survives(block, p) { WrittenSurvives(filter, block, p, k); }
    if LastWrite(records, k).Some? {
      var i := LatestIndex(records, (c: Change) => Writes(c, k));
      LastIndexed(filter, block, k, records, all, i);
      last := all[i];
    } else {
      last := InBlock(StorageKind, 0);
      forall p | Survives(block, p) ensures !WritesAt(filter, block, p, k) {
        var n :| 0 <= n < |all| && all[n] == p;
        assert records[n] in records;
      }
    }
  }

  lemma WrittenSurvives(filter: set<Address>, block: Block, p: Place, k: Key)
    requires WritesAt(filter, block, p, k)
    ensures Survives(block, p)
  {
  }

  lemma LastIndexed(filter: set<Address>, block: Block, k: Key, records: seq<Change>, all: seq<Place>, i: nat)
    requires Located(block, all, records) && Ascending(all, BeforeIn(block)) && i < |all|
    requires forall p :: p in all <==> Survives(block, p)
    requires forall p :: p in all ==> (WritesAt(filter, block, p, k) <==> Writes(RecordAt(block, p), k))
    requires Writes(records[i], k)
    requires forall j :: 0 <= j < |all| && Writes(records[j], k) ==>
             records[j].ordinal < records[i].ordinal || (records[j].ordinal == records[i].ordinal && j <= i)
    ensures LastAt(filter, block, all[i], k)
  {
    hide Survives, RecordAt, Before, Writes;
    forall q | WritesAt(filter, block, q, k) ensures q == all[i] || InOrder(block, q, all[i]) {
      var j :| 0 <= j < |all| && all[j] == q;
      assert j < i ==> BeforeIn(block)(all[j], all[i]);
    }
  }

  /** There is one last place. */
  lemma LastUnique(filter: set<Address>, block: Block, p: Place, q: Place, k: Key)
    requires LastAt(filter, block, p, k) && LastAt(filter, block, q, k)
    ensures p == q
  {
    if p != q { BeforeOnce(block, p, q); }
  }

  lemma BeforeOnce(block: Block, p: Place, q: Place)
    ensures !(Before(block, p, q) && Before(block, q, p))
  {
  }

  // ---------------------------------------------------------------- the rows

  /** The last wanted write to the row's key wrote it, and no deletion of the account undoes it: one
      at the write's own ordinal undoes a slot only. */
  ghost predicate RowWritten(filter: set<Address>, block: Block, r: Row)
    requires Dated(block)
  {
    && (exists p :: LastAt(filter, block, p, r.key) && r == Written(RecordAt(block, p)))
    && forall o: nat :: WipedAt(block, r.key.account, o) ==> o < r.ordinal || (o == r.ordinal && !r.key.Slot?)
  }

  /** The last deletion of a selected account emptied the field, and no wanted write is as late. */
  ghost predicate RowWiped(filter: set<Address>, block: Block, r: Row)
    requires Dated(block)
  {
    && r.key.account in filter && !r.key.Slot?
    && LastWipedAt(block, r.key.account, r.ordinal) && r == Emptied(r.key, r.ordinal)
    && forall p :: WritesAt(filter, block, p, r.key) ==> RecordAt(block, p).ordinal < r.ordinal
  }

  lemma WipesIn(filter: set<Address>, block: Block, a: Address)
    requires Acceptable(filter, block) && a in filter
    ensures var m := Selected(Greatest(BlockDeletions(block, Time(block)).value), filter);
            && (a in m ==> LastWipedAt(block, a, m[a]))
            && (a !in m ==> forall o: nat :: !WipedAt(block, a, o))
  {
    hide Wiped, BlockRecords, BlockDeletions, Qualified;
    MapHoldsWiped(block, Time(block), a);
  }

  lemma EmptiedIs(k: Key, o: nat)
    ensures Row(k, Default(k), o) == Emptied(k, o)
  {
  }

  lemma RowWrittenIs(filter: set<Address>, block: Block, p: Place, r: Row)
    requires Dated(block) && LastAt(filter, block, p, r.key)
    ensures RowWritten(filter, block, r) <==>
            && r == Written(RecordAt(block, p))
            && forall o: nat :: WipedAt(block, r.key.account, o) ==> o < r.ordinal || (o == r.ordinal && !r.key.Slot?)
  {
    hide WipedAt, Survives, RecordAt, Written, LastAt;
    forall q | LastAt(filter, block, q, r.key) ensures q == p { LastUnique(filter, block, p, q, r.key); }
  }

  lemma RowWipedIs(filter: set<Address>, block: Block, p: Place, r: Row)
    requires Dated(block) && LastAt(filter, block, p, r.key)
    ensures RowWiped(filter, block, r) <==>
            && r.key.account in filter && !r.key.Slot?
            && LastWipedAt(block, r.key.account, r.ordinal) && r == Emptied(r.key, r.ordinal)
            && RecordAt(block, p).ordinal < r.ordinal
  {
    hide WipedAt, Survives, RecordAt, Written, Before;
  }

  /** The merged row of a key that was written, in the block's own fields. */
  lemma MergedWritten(filter: set<Address>, block: Block, rows: map<Key, Row>, m: map<Address, nat>, k: Key,
                      p: Place, r: Row)
    requires Dated(block) && k.account in filter && LastAt(filter, block, p, k)
    requires k.account in m ==> LastWipedAt(block, k.account, m[k.account])
    requires k.account !in m ==> forall o: nat :: !WipedAt(block, k.account, o)
    requires k in rows && rows[k] == Written(RecordAt(block, p))
    ensures MergedRow(rows, m, k) == Some(r) <==>
            r.key == k && (RowWritten(filter, block, r) || RowWiped(filter, block, r))
  {
    hide WipedAt, Survives, RecordAt, RowWritten, RowWiped;
    var c := RecordAt(block, p);
    assert Written(c).key == k && Written(c).ordinal == c.ordinal by { WrittenKey(filter, block, p, k); }
    if r.key == k {
      RowWrittenIs(filter, block, p, r);
      RowWipedIs(filter, block, p, r);
    }
    if k.account in m { EmptiedIs(k, m[k.account]); }
  }

  lemma WrittenKey(filter: set<Address>, block: Block, p: Place, k: Key)
    requires LastAt(filter, block, p, k)
    ensures Written(RecordAt(block, p)).key == k && Written(RecordAt(block, p)).ordinal == RecordAt(block, p).ordinal
  {
  }

  /** And of one that was not. */
  lemma MergedUnwritten(filter: set<Address>, block: Block, rows: map<Key, Row>, m: map<Address, nat>, k: Key, r: Row)
    requires Dated(block) && k.account in filter && forall p :: !WritesAt(filter, block, p, k)
    requires k.account in m ==> LastWipedAt(block, k.account, m[k.account])
    requires k.account !in m ==> forall o: nat :: !WipedAt(block, k.account, o)
    requires k !in rows
    ensures MergedRow(rows, m, k) == Some(r) <==>
            r.key == k && (RowWritten(filter, block, r) || RowWiped(filter, block, r))
  {
    hide WipedAt, WritesAt, Survives, RecordAt, Written, InOrder;
    if k.account in m { EmptiedIs(k, m[k.account]); }
  }

  /** The rows of a patch: exactly what was written last and not deleted, and the fields that a later
      deletion emptied. */
  lemma PatchRows(filter: set<Address>, block: Block, r: Row)
    requires Acceptable(filter, block)
    ensures r in Patch(filter, block).rows <==> RowWritten(filter, block, r) || RowWiped(filter, block, r)
  {
    hide RowWritten, RowWiped, Patch, BlockRows, MergedRow, Greatest, LastAt;
    var k, records, ds := r.key, BlockRecords(block).value, BlockDeletions(block, Time(block)).value;
    if k.account !in filter {
      ProjectionWithinFilter(filter, block);
      RowsSelected(filter, block, r);
    } else {
      PatchRow(filter, block, k);
      BlockRow(filter, records, k);
      WipesIn(filter, block, k.account);
      var p := LastPlace(filter, block, k);
      var rows, m, w := BlockRows(filter, records), Selected(Greatest(ds), filter), LastWrite(records, k);
      if w.Some? {
        WrittenIs(w.value);
        MergedWritten(filter, block, rows, m, k, p, r);
      } else {
        MergedUnwritten(filter, block, rows, m, k, r);
      }
    }
  }

  lemma RowsSelected(filter: set<Address>, block: Block, r: Row)
    requires Acceptable(filter, block) && r.key.account !in filter
    ensures !RowWritten(filter, block, r) && !RowWiped(filter, block, r)
    ensures Patch(filter, block).accounts == filter
  {
  }

  /** A last write that no deletion undoes is the one row of its key. */
  lemma LastWriteIsPublished(filter: set<Address>, block: Block, p: Place, r: Row)
    requires Acceptable(filter, block) && Survives(block, p)
    requires var c := RecordAt(block, p);
             && LastAt(filter, block, p, Written(c).key)
             && forall o: nat :: WipedAt(block, c.address, o) ==> o < c.ordinal || (o == c.ordinal && !c.StorageChange?)
    ensures var w := Written(RecordAt(block, p)); r in Patch(filter, block).rows && r.key == w.key <==> r == w
  {
    hide Patch, Survives, RecordAt, LastAt, WipedAt;
    var w := Written(RecordAt(block, p));
    assert RowWritten(filter, block, w);
    PatchRows(filter, block, w);
    ProjectionUniqueRows(filter, block);
  }

  // ---------------------------------------------------------------- the marks

  /** A wanted record at p lowers the account's nonce. */
  predicate LoweredAt(filter: set<Address>, block: Block, p: Place, a: Address, o: nat) {
    && Wanted(filter, block, p)
    && var c := RecordAt(block, p);
       c.NonceChange? && c.address == a && c.ordinal == o && c.newNonce < c.oldNonce
  }

  /** A wanted record at p leaves the account no code. */
  predicate ClearedAt(filter: set<Address>, block: Block, p: Place, a: Address, o: nat) {
    && Wanted(filter, block, p)
    && var c := RecordAt(block, p);
       c.CodeChange? && c.address == a && c.ordinal == o && c.newCode == []
  }

  /** Call j of transaction i keeps a SELFDESTRUCT of the account and ends at o. */
  ghost predicate SuicideAt(block: Block, i: int, j: int, a: Address, o: nat) {
    && 0 <= i < |block.transactions| && Suicide(block.transactions[i], j, a)
    && block.transactions[i].calls[j].endOrdinal == o
  }

  lemma SuicideIs(filter: set<Address>, block: Block, a: Address, o: nat)
    ensures Mark(a, SelfDestruct, o) in DestructMarks(filter, block.transactions) <==>
            a in filter && exists i, j :: SuicideAt(block, i, j, a, o)
  {
    hide RunsAt, Context;
    var txs := block.transactions;
    if Mark(a, SelfDestruct, o) in DestructMarks(filter, txs) {
      var i, j :| 0 <= i < |txs| && txs[i].status.Succeeded? && 0 <= j < |txs[i].calls| && Destroys(txs[i].calls[j])
        && Context(txs[i].calls[j], txs[i].calls) == Ok(a) && a in filter && txs[i].calls[j].endOrdinal == o;
      ContextIs(txs[i].calls[j], txs[i].calls, a);
      assert SuicideAt(block, i, j, a, o);
    }
    if a in filter {
      if i, j :| SuicideAt(block, i, j, a, o) {
        ContextIs(txs[i].calls[j], txs[i].calls, a);
        assert Mark(Context(txs[i].calls[j], txs[i].calls).value, SelfDestruct, o) in DestructMarks(filter, txs);
      }
    }
  }

  lemma DestructOnly(filter: set<Address>, block: Block, a: Address, o: nat)
    requires Acceptable(filter, block)
    ensures Mark(a, SelfDestruct, o) in Patch(filter, block).lifecycle <==>
            Mark(a, SelfDestruct, o) in DestructMarks(filter, block.transactions)
  {
    hide DestructMarks, ProjectedRows, Acceptable, ListOf;
  }

  /** The lifecycle marks of a patch, each kind exactly. */
  lemma PatchMarks(filter: set<Address>, block: Block, a: Address, o: nat)
    requires Acceptable(filter, block)
    ensures var marks := Patch(filter, block).lifecycle;
            && (Mark(a, NonceReset, o) in marks <==> exists p :: LoweredAt(filter, block, p, a, o))
            && (Mark(a, CodeCleared, o) in marks <==> exists p :: ClearedAt(filter, block, p, a, o))
            && (Mark(a, SelfDestruct, o) in marks <==> a in filter && exists i, j :: SuicideAt(block, i, j, a, o))
            && (Mark(a, StorageReset, o) in marks <==> a in filter && LastWipedAt(block, a, o))
  {
    hide Patch, SuicideAt, LoweredAt, ClearedAt, LastWipedAt, BlockRecords, DestructMarks;
    FieldPlaces(filter, block, a, o);
    DestructOnly(filter, block, a, o);
    SuicideIs(filter, block, a, o);
    ResetPlaces(filter, block, a, o);
  }

  lemma ResetPlaces(filter: set<Address>, block: Block, a: Address, o: nat)
    requires Acceptable(filter, block)
    ensures Mark(a, StorageReset, o) in Patch(filter, block).lifecycle <==> a in filter && LastWipedAt(block, a, o)
  {
    hide Patch, BlockRecords, BlockDeletions, Qualified, WipedAt;
    PatchResets(filter, block, a, o);
    if a in filter { WipesIn(filter, block, a); }
  }

  /** A wanted record stands at p. */
  predicate WantedAt(filter: set<Address>, block: Block, p: Place, c: Change) {
    Wanted(filter, block, p) && RecordAt(block, p) == c
  }

  lemma KeptIs(filter: set<Address>, block: Block, c: Change)
    requires BlockRecords(block).Ok?
    ensures c in BlockRecords(block).value && Kept(filter, c) <==> exists p :: WantedAt(filter, block, p, c)
  {
    hide Survives, RecordAt, Alters, NoOp;
    var records := BlockRecords(block).value;
    var all := SurvivingPlaces(block);
    AltersIs(c);
    if c in records && Kept(filter, c) {
      var n :| 0 <= n < |records| && records[n] == c;
      assert WantedAt(filter, block, all[n], c);
    }
    if p :| WantedAt(filter, block, p, c) {
      var n :| 0 <= n < |all| && all[n] == p;
      assert records[n] in records;
    }
  }

  lemma FieldPlaces(filter: set<Address>, block: Block, a: Address, o: nat)
    requires Acceptable(filter, block)
    ensures var marks := Patch(filter, block).lifecycle;
            && (Mark(a, NonceReset, o) in marks <==> exists p :: LoweredAt(filter, block, p, a, o))
            && (Mark(a, CodeCleared, o) in marks <==> exists p :: ClearedAt(filter, block, p, a, o))
  {
    hide Patch, Survives, Alters, RecordAt, BlockRecords, BlockDeletions, Qualified, Kept;
    FieldMarkMeans(filter, block, a, o);
    var records := BlockRecords(block).value;
    forall c ensures c in records && Kept(filter, c) <==> exists p :: WantedAt(filter, block, p, c) {
      KeptIs(filter, block, c);
    }
    if c :| c in records && Kept(filter, c) && LowersNonce(c, a, o) {
      var p :| WantedAt(filter, block, p, c);
      assert LoweredAt(filter, block, p, a, o);
    }
    if c :| c in records && Kept(filter, c) && ClearsCode(c, a, o) {
      var p :| WantedAt(filter, block, p, c);
      assert ClearedAt(filter, block, p, a, o);
    }
    if p :| LoweredAt(filter, block, p, a, o) {
      var c := RecordAt(block, p);
      assert WantedAt(filter, block, p, c) && LowersNonce(c, a, o);
    }
    if p :| ClearedAt(filter, block, p, a, o) {
      var c := RecordAt(block, p);
      assert WantedAt(filter, block, p, c) && ClearsCode(c, a, o);
    }
  }

  // ---------------------------------------------------------------- admission

  /** What the source's producer must have filled in. */
  predicate FilledIn(block: Block) {
    && block.extended && block.version in {3, 4, 5} && block.header.Some?
    && var header := block.header.value;
       && |block.hash| == 32 && |header.parentHash| == 32 && |header.stateRoot| == 32
       && header.number == block.number && header.timestamp.Some?
       && 0 <= header.timestamp.value.seconds && 0 <= header.timestamp.value.nanos <= 999_999_999
       && forall tx :: tx in block.transactions ==> tx.status != UnknownStatus && |tx.calls| > 0
  }

  /** A wanted record that does not fit: a key or word over 32 bytes, a code hash of another length
      than 32, or no hash for some code. */
  predicate MisfitAt(filter: set<Address>, block: Block, p: Place) {
    && Wanted(filter, block, p)
    && var c := RecordAt(block, p);
       || (c.StorageChange? && (|c.key| > 32 || |c.newWord| > 32))
       || (c.CodeChange? && |c.newHash| != 32 && |c.newHash| + |c.newCode| > 0)
  }

  /** The projection accepts exactly: selected accounts, a complete block, no transaction refused by
      the collector, no deletion refused by scheduling, and no misfit. */
  lemma AcceptedExactly(filter: set<Address>, block: Block)
    ensures Acceptable(filter, block) <==>
            && filter != {} && FilledIn(block)
            && (forall tx :: tx in block.transactions ==> !Refused(tx))
            && (forall call :: call in block.systemCalls ==> !call.suicide || call.stateReverted)
            && (forall tx :: tx in block.transactions ==>
                  !UnreliableEnd(tx, block.header.value.timestamp.value.seconds))
            && forall p :: !MisfitAt(filter, block, p)
  {
    hide UnreliableEnd, Refused, MisfitAt, BlockDeletions;
    var txs, system := block.transactions, block.systemCalls;
    RefusedBlock(txs);
    assert BlockRecords(block).Ok? <==> forall tx :: tx in txs ==> !Refused(tx);
    assert Qualified(filter, block) <==> filter != {} && FilledIn(block) by { QualifiedIs(filter, block); }
    if filter != {} && FilledIn(block) {
      DeletionsRefused(block, Time(block));
      assert BlockDeletions(block, Time(block)).Ok? <==>
        && (forall call :: call in system ==> !call.suicide || call.stateReverted)
        && forall tx :: tx in txs ==> !UnreliableEnd(tx, Time(block));
    }
    if BlockRecords(block).Ok? { MisfitIs(filter, block); }
  }

  lemma QualifiedIs(filter: set<Address>, block: Block)
    ensures Qualified(filter, block) <==> filter != {} && FilledIn(block)
  {
    var txs := block.transactions;
    assert (forall tx :: tx in txs ==> tx.status != UnknownStatus && |tx.calls| > 0) <==>
      forall i :: 0 <= i < |txs| ==> !txs[i].status.UnknownStatus? && txs[i].calls != [];
  }

  lemma MisfitIs(filter: set<Address>, block: Block)
    requires BlockRecords(block).Ok?
    ensures (forall c :: c in BlockRecords(block).value && Kept(filter, c) ==> ValidRecord(c)) <==>
            forall p :: !MisfitAt(filter, block, p)
  {
    hide Survives, RecordAt, Alters, Kept, BlockRecords;
    forall c ensures c in BlockRecords(block).value && Kept(filter, c) <==> exists p :: WantedAt(filter, block, p, c) {
      KeptIs(filter, block, c);
    }
    forall p | Wanted(filter, block, p) ensures MisfitAt(filter, block, p) <==> !ValidRecord(RecordAt(block, p)) {
    }
    if p :| MisfitAt(filter, block, p) { assert WantedAt(filter, block, p, RecordAt(block, p)); }
    if c :| c in BlockRecords(block).value && Kept(filter, c) && !ValidRecord(c) {
      var p :| WantedAt(filter, block, p, c);
      assert MisfitAt(filter, block, p);
    }
  }

  // ---------------------------------------------------------------- the columns

  /** Accepted blocks at consecutive heights. */
  ghost predicate Heights(filter: set<Address>, blocks: seq<Block>) {
    && blocks != [] && EndToEnd.Accepted(filter, blocks)
    && forall i :: 0 <= i < |blocks| ==> blocks[i].header.Some? && blocks[i].number == blocks[0].number + i
  }

  lemma {:induction false} ItsPatch(filter: set<Address>, blocks: seq<Block>, i: nat)
    requires EndToEnd.Accepted(filter, blocks) && i < |blocks|
    ensures Acceptable(filter, blocks[i]) && EndToEnd.Patches(filter, blocks)[i] == Patch(filter, blocks[i])
  {
    hide Acceptable, Patch;
    if i < |blocks| - 1 { ItsPatch(filter, blocks[..|blocks| - 1], i); }
  }

  /** A prefix that ends just before the run. */
  predicate EndsBefore(prefix: Option<Interval.PrefixHeader>, blocks: seq<Block>)
    requires blocks != []
  {
    prefix.Some? ==> prefix.value.start <= prefix.value.number && prefix.value.number + 1 == blocks[0].number
  }

  /** The range of a run of blocks, behind a prefix or over a base with the given hash, if any. */
  function RangeOf(filter: set<Address>, blocks: seq<Block>, base: Option<Bytes>,
                   prefix: Option<Interval.PrefixHeader>): Interval.Range
    requires blocks != []
  {
    Interval.Range(if prefix.Some? then prefix.value.start else blocks[0].number, filter, base, prefix)
  }

  /** What the first block has to name. */
  function ParentOf(base: Option<Bytes>, prefix: Option<Interval.PrefixHeader>): Option<Bytes> {
    if prefix.Some? then Some(prefix.value.hash) else base
  }

  /** The header of the last block. */
  function TargetOf(block: Block): Interval.Target
    requires block.header.Some?
  {
    Interval.Target(block.number, block.hash, block.header.value.stateRoot)
  }

  /** The i-th block names its predecessor, the first one the base if there is one. */
  predicate Names(blocks: seq<Block>, base: Option<Bytes>, i: nat)
    requires i < |blocks| && blocks[i].header.Some?
  {
    var parent := blocks[i].header.value.parentHash;
    if i > 0 then parent == blocks[i - 1].hash else base.Some? ==> parent == base.value
  }

  /** The columns that interval validation reads. */
  lemma Columns(filter: set<Address>, block: Block)
    requires Acceptable(filter, block)
    ensures var b := Patch(filter, block);
            && b.number == block.header.value.number == block.number && b.hash == block.hash
            && b.parentHash == block.header.value.parentHash && b.stateRoot == block.header.value.stateRoot
            && b.accounts == filter && b.schemaVersion == 1 && 3 <= b.producerVersion <= 5
            && |b.hash| == 32 && |b.parentHash| == 32 && filter != {}
  {
    hide Replayable, ProjectedRows, FieldMarks, DestructMarks, ResetMarks;
  }

  lemma RowsAtHeight(filter: set<Address>, blocks: seq<Block>, i: nat)
    requires Heights(filter, blocks) && i < |blocks|
    ensures Acceptable(filter, blocks[i])
    ensures Interval.RowsAt(EndToEnd.Patches(filter, blocks), blocks[0].number + i) == [Patch(filter, blocks[i])]
  {
    hide Patch, Acceptable, EndToEnd.Accepted, EndToEnd.Patches;
    var table := EndToEnd.Patches(filter, blocks);
    forall j | 0 <= j < |table| ensures table[j].number == blocks[0].number + j {
      ItsPatch(filter, blocks, j);
      Columns(filter, blocks[j]);
    }
    ItsPatch(filter, blocks, i);
    Interval.ConsecutiveRows(table, blocks[0].number, blocks[0].number + i);
  }

  lemma HeightIs(filter: set<Address>, blocks: seq<Block>, base: Option<Bytes>, prefix: Option<Interval.PrefixHeader>,
                 i: nat)
    requires Heights(filter, blocks) && EndsBefore(prefix, blocks) && i < |blocks|
    ensures Interval.ValidAt(RangeOf(filter, blocks, base, prefix), TargetOf(blocks[|blocks| - 1]),
                             EndToEnd.Patches(filter, blocks), blocks[0].number + i)
            <==> Names(blocks, ParentOf(base, prefix), i)
  {
    hide Patch, Acceptable, EndToEnd.Patches, EndToEnd.Accepted, Interval.RowsAt;
    RowsAtHeight(filter, blocks, i);
    Columns(filter, blocks[i]);
    if i > 0 {
      RowsAtHeight(filter, blocks, i - 1);
      Columns(filter, blocks[i - 1]);
      assert blocks[0].number + (i - 1) == blocks[0].number + i - 1;
    }
  }

  /** The patches of a run of accepted blocks are a valid interval up to the last header exactly when
      every block names the hash before it as its parent, and the first one the prefix or the base. */
  lemma RunIsInterval(filter: set<Address>, blocks: seq<Block>, base: Option<Bytes>,
                      prefix: Option<Interval.PrefixHeader>)
    requires Heights(filter, blocks) && blocks[|blocks| - 1].number < 0xffff_ffff_ffff_ffff
    requires EndsBefore(prefix, blocks)
    ensures Interval.ValidInterval(RangeOf(filter, blocks, base, prefix), TargetOf(blocks[|blocks| - 1]),
                                   EndToEnd.Patches(filter, blocks))
            <==> forall i :: 0 <= i < |blocks| ==> Names(blocks, ParentOf(base, prefix), i)
  {
    hide Interval.ValidAt, Names, Patch, Acceptable, EndToEnd.Patches, EndToEnd.Accepted;
    ItsPatch(filter, blocks, 0);
    Columns(filter, blocks[0]);
    var first, parent := blocks[0].number, ParentOf(base, prefix);
    var range, target := RangeOf(filter, blocks, base, prefix), TargetOf(blocks[|blocks| - 1]);
    var table := EndToEnd.Patches(filter, blocks);
    forall i | 0 <= i < |blocks|
      ensures Interval.ValidAt(range, target, table, first + i) <==> Names(blocks, parent, i)
    {
      HeightIs(filter, blocks, base, prefix, i);
    }
    forall n | first <= n < first + |blocks|
      ensures Interval.ValidAt(range, target, table, n) <==> Names(blocks, parent, n - first)
    {
      assert first + (n - first) == n;
    }
    assert target.number == first + |blocks| - 1;
  }
}
