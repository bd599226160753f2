/** The native block projection: one patch per block, the last value per key merged
    with the account deletions of the block. */
module Projection {
  import opened Words
  import opened Sequences
  import opened Trace
  import opened Lifecycle
  import opened Persist
  import opened Replay

  datatype Row = Row(key: Key, value: Value, ordinal: nat)

  datatype MarkKind = NonceReset | CodeCleared | SelfDestruct | StorageReset

  datatype Mark = Mark(account: Address, kind: MarkKind, ordinal: nat)

  datatype BlockState = BlockState(
    number: nat, hash: Bytes, parentHash: Bytes, timestamp: nat, stateRoot: Bytes,
    producerVersion: int, accounts: set<Address>, schemaVersion: nat,
    rows: set<Row>, lifecycle: set<Mark>)

  // ---------------------------------------------------------------- admission

  predicate ValidRecord(c: Change) {
    match c
    case StorageChange(_, key, _, next, _) => |key| <= 32 && |next| <= 32
    case CodeChange(_, _, _, hash, code, _) => |hash| == 32 || (hash == [] && code == [])
    case _ => true
  }

  predicate Qualified(filter: set<Address>, block: Block) {
    && filter != {}
    && block.extended
    && 3 <= block.version <= 5
    && block.header.Some?
    && |block.hash| == 32
    && |block.header.value.parentHash| == 32
    && |block.header.value.stateRoot| == 32
    && block.header.value.number == block.number
    && block.header.value.timestamp.Some?
    && block.header.value.timestamp.value.seconds >= 0
    && 0 <= block.header.value.timestamp.value.nanos < 1_000_000_000
    && forall i :: 0 <= i < |block.transactions| ==>
      !block.transactions[i].status.UnknownStatus? && block.transactions[i].calls != []
  }

  predicate Dated(block: Block) {
    block.header.Some? && block.header.value.timestamp.Some? && block.header.value.timestamp.value.seconds >= 0
  }

  function Time(block: Block): nat
    requires Dated(block)
  {
    block.header.value.timestamp.value.seconds
  }

  /** The survivors and the deletions of the block are defined. */
  predicate Replayable(block: Block) {
    Dated(block) && BlockRecords(block).Ok? && BlockDeletions(block, Time(block)).Ok?
  }

  /** The blocks the projection accepts. */
  predicate Acceptable(filter: set<Address>, block: Block) {
    && Qualified(filter, block)
    && Replayable(block)
    && forall c :: c in BlockRecords(block).value && Kept(filter, c) ==> ValidRecord(c)
  }

  // ---------------------------------------------------------------- collapse

  function RowOf(c: Change): Row {
    Row(KeyOf(c), NewValue(c), c.ordinal)
  }

  /** Inserting in list order leaves the last row per key. */
  function Collapse(rows: map<Key, Row>, cs: seq<Change>): map<Key, Row> {
    if cs == [] then rows
    else Collapse(rows, cs[..|cs| - 1])[KeyOf(cs[|cs| - 1]) := RowOf(cs[|cs| - 1])]
  }

  lemma {:induction false} CollapsedRow(rows: map<Key, Row>, cs: seq<Change>, k: Key)
    ensures var w := LastMatch(cs, (c: Change) => KeyOf(c) == k);
            && (k in Collapse(rows, cs) <==> w.Some? || k in rows)
            && (k in Collapse(rows, cs) ==> Collapse(rows, cs)[k] == if w.Some? then RowOf(w.value) else rows[k])
  {
    if cs != [] { CollapsedRow(rows, cs[..|cs| - 1], k); }
  }

  method CollapseInto(rows0: map<Key, Row>, cs: seq<Change>) returns (r: Result<map<Key, Row>>)
    ensures r.Ok? <==> forall i :: 0 <= i < |cs| ==> ValidRecord(cs[i])
    ensures r.Ok? ==> r.value == Collapse(rows0, cs)
  {
    var rows := rows0;
    for i := 0 to |cs|
      invariant forall j :: 0 <= j < i ==> ValidRecord(cs[j])
      invariant rows == Collapse(rows0, cs[..i])
    {
      if !ValidRecord(cs[i]) {
        return Err("invalid storage word or code hash");
      }
      assert cs[..i + 1][..i] == cs[..i];
      rows := rows[KeyOf(cs[i]) := RowOf(cs[i])];
    }
    assert cs[..|cs|] == cs;
    return Ok(rows);
  }

  function KindOfKey(k: Key): Kind {
    match k
    case Slot(_, _) => StorageKind
    case Balance(_) => BalanceKind
    case Nonce(_) => NonceKind
    case Code(_) => CodeKind
  }

  /** Among the four filtered and sorted lists, only k's own kind writes k, and that list
      ends with the last effective write to k. */
  lemma SortedListRow(records: seq<Change>, filter: set<Address>, kind: Kind, k: Key)
    requires Matches(filter, k.account)
    ensures LastMatch(SortBy(Filter(records, Selects(filter, kind)), OrdinalOf), (c: Change) => KeyOf(c) == k)
            == if kind == KindOfKey(k) then LastWrite(records, k) else None
  {
    var s := Filter(records, Selects(filter, kind));
    LastOfSorted(s, OrdinalOf, (c: Change) => KeyOf(c) == k);
    SelectedAre(records, filter, kind);
    if kind == KindOfKey(k) { LatestSelected(records, filter, k); }
  }

  lemma LatestSelected(records: seq<Change>, filter: set<Address>, k: Key)
    requires Matches(filter, k.account)
    ensures Latest(Filter(records, Selects(filter, KindOfKey(k))), OrdinalOf, (c: Change) => KeyOf(c) == k)
            == LastWrite(records, k)
  {
    var q, own := Selects(filter, KindOfKey(k)), (c: Change) => KeyOf(c) == k;
    var p := (c: Change) => Writes(c, k);
    var s := Filter(records, q);
    SelectedAre(records, filter, KindOfKey(k));
    LatestFilter(records, OrdinalOf, p, q);
    assert forall c :: c in s ==> p(c) == own(c);
    LatestSame(s, OrdinalOf, p, own);
  }

  lemma SelectedAre(records: seq<Change>, filter: set<Address>, kind: Kind)
    ensures forall c :: c in Filter(records, Selects(filter, kind)) ==> Kept(filter, c) && KindOf(c) == kind
  {
    forall c | c in Filter(records, Selects(filter, kind)) ensures Kept(filter, c) && KindOf(c) == kind {
      FilterMember(records, Selects(filter, kind), c);
    }
  }

  lemma {:induction false} LatestSame<T>(s: seq<T>, ord: T -> nat, p: T -> bool, q: T -> bool)
    requires forall x :: x in s ==> p(x) == q(x)
    ensures Latest(s, ord, p) == Latest(s, ord, q)
  {
    if s != [] { LatestSame(s[..|s| - 1], ord, p, q); }
  }

  /** The collector's list of one kind. */
  function ListOf(filter: set<Address>, records: seq<Change>, kind: Kind): seq<Change> {
    SortBy(Filter(records, Selects(filter, kind)), OrdinalOf)
  }

  lemma CollectedLists(filter: set<Address>, records: seq<Change>)
    ensures Sorted(Extend(NOTHING, filter, records)) == StateChanges(
      ListOf(filter, records, StorageKind), ListOf(filter, records, BalanceKind),
      ListOf(filter, records, NonceKind), ListOf(filter, records, CodeKind))
  {
    assert forall kind :: [] + Filter(records, Selects(filter, kind)) == Filter(records, Selects(filter, kind));
  }

  /** The collapsed rows of a block. */
  function BlockRows(filter: set<Address>, records: seq<Change>): map<Key, Row> {
    Collapse(Collapse(Collapse(Collapse(map[],
      ListOf(filter, records, StorageKind)), ListOf(filter, records, BalanceKind)),
      ListOf(filter, records, NonceKind)), ListOf(filter, records, CodeKind))
  }

  lemma CollapsedList(rows: map<Key, Row>, filter: set<Address>, records: seq<Change>, kind: Kind, k: Key)
    requires Matches(filter, k.account)
    ensures var next, w := Collapse(rows, ListOf(filter, records, kind)), LastWrite(records, k);
            if kind == KindOfKey(k) && w.Some? then k in next && next[k] == RowOf(w.value)
            else (k in next <==> k in rows) && (k in rows ==> next[k] == rows[k])
  {
    SortedListRow(records, filter, kind, k);
    CollapsedRow(rows, ListOf(filter, records, kind), k);
  }

  lemma BlockRow(filter: set<Address>, records: seq<Change>, k: Key)
    requires Matches(filter, k.account)
    ensures var w := LastWrite(records, k);
            && (k in BlockRows(filter, records) <==> w.Some?)
            && (w.Some? ==> BlockRows(filter, records)[k] == RowOf(w.value))
  {
    var rows1 := Collapse(map[], ListOf(filter, records, StorageKind));
    var rows2 := Collapse(rows1, ListOf(filter, records, BalanceKind));
    var rows3 := Collapse(rows2, ListOf(filter, records, NonceKind));
    CollapsedList(map[], filter, records, StorageKind, k);
    CollapsedList(rows1, filter, records, BalanceKind, k);
    CollapsedList(rows2, filter, records, NonceKind, k);
    CollapsedList(rows3, filter, records, CodeKind, k);
  }

  // ---------------------------------------------------------------- deletions

  predicate KeyedByThemselves(rows: map<Key, Row>) {
    forall k :: k in rows ==> rows[k].key == k
  }

  function FieldKeys(accounts: set<Address>): set<Key> {
    (set a | a in accounts :: Balance(a)) + (set a | a in accounts :: Nonce(a)) + (set a | a in accounts :: Code(a))
  }

  /** A deletion removes earlier slots and zeroes the fields that have no newer value. */
  function MergedRow(rows: map<Key, Row>, m: map<Address, nat>, k: Key): Option<Row> {
    if k.account !in m then if k in rows then Some(rows[k]) else None
    else if k.Slot? then if k in rows && rows[k].ordinal > m[k.account] then Some(rows[k]) else None
    else if k in rows && rows[k].ordinal >= m[k.account] then Some(rows[k])
    else Some(Row(k, Default(k), m[k.account]))
  }

  function Merged(rows: map<Key, Row>, m: map<Address, nat>): map<Key, Row> {
    map k | k in rows.Keys + FieldKeys(m.Keys) && MergedRow(rows, m, k).Some? :: MergedRow(rows, m, k).value
  }

  lemma MergedLookup(rows: map<Key, Row>, m: map<Address, nat>, k: Key)
    ensures k in Merged(rows, m) <==> MergedRow(rows, m, k).Some?
    ensures k in Merged(rows, m) ==> Merged(rows, m)[k] == MergedRow(rows, m, k).value
  {
  }

  /** Replaces a field's row unless it is at least as new as the deletion. */
  function ZeroField(rows: map<Key, Row>, k: Key, ordinal: nat): map<Key, Row> {
    if k in rows && rows[k].ordinal >= ordinal then rows else rows[k := Row(k, Default(k), ordinal)]
  }

  function DropSlots(rows: map<Key, Row>, a: Address, ordinal: nat): map<Key, Row> {
    map k | k in rows && !(k.Slot? && k.account == a && rows[k].ordinal <= ordinal) :: rows[k]
  }

  /** One turn of the deletion loop. */
  function Delete(rows: map<Key, Row>, a: Address, ordinal: nat): map<Key, Row> {
    var dropped := ZeroField(DropSlots(rows, a, ordinal), Balance(a), ordinal);
    ZeroField(ZeroField(dropped, Nonce(a), ordinal), Code(a), ordinal)
  }

  method ApplyDeletions(rows0: map<Key, Row>, m: map<Address, nat>) returns (rows: map<Key, Row>)
    ensures rows == Merged(rows0, m)
  {
    rows := rows0;
    var todo := m.Keys;
    assert Merged(rows0, m - m.Keys) == rows0;
    while todo != {}
      invariant todo <= m.Keys
      invariant rows == Merged(rows0, m - todo)
      decreases todo
    {
      var a :| a in todo;
      MergeStep(rows0, m, todo, a);
      rows := Delete(rows, a, m[a]);
      todo := todo - {a};
    }
    assert m - {} == m;
  }

  lemma DeletedRow(rows: map<Key, Row>, a: Address, ordinal: nat, k: Key)
    ensures var r := Delete(rows, a, ordinal);
            && (k in r <==> if k.account != a then k in rows else !k.Slot? || (k in rows && rows[k].ordinal > ordinal))
            && (k in r && k in rows && (k.account != a || rows[k].ordinal >= ordinal) ==> r[k] == rows[k])
            && (k in r && k.account == a && !(k in rows && rows[k].ordinal >= ordinal) ==>
                  r[k] == Row(k, Default(k), ordinal))
  {
    var r0 := DropSlots(rows, a, ordinal);
    var r1 := ZeroField(r0, Balance(a), ordinal);
    var r2 := ZeroField(r1, Nonce(a), ordinal);
    assert !k.Slot? || k.account != a ==> (k in r0 <==> k in rows);
    assert k in r0 ==> r0[k] == rows[k];
  }

  lemma MergeStep(rows0: map<Key, Row>, m: map<Address, nat>, todo: set<Address>, a: Address)
    requires todo <= m.Keys && a in todo
    ensures Delete(Merged(rows0, m - todo), a, m[a]) == Merged(rows0, m - (todo - {a}))
  {
    var before, after := Merged(rows0, m - todo), Merged(rows0, m - (todo - {a}));
    forall k ensures k in Delete(before, a, m[a]) <==> k in after
             ensures k in after ==> Delete(before, a, m[a])[k] == after[k]
    {
      DeletedRow(before, a, m[a], k);
      MergedLookup(rows0, m - todo, k);
      MergedLookup(rows0, m - (todo - {a}), k);
    }
  }

  // ---------------------------------------------------------------- the projection

  function Selected(m: map<Address, nat>, filter: set<Address>): map<Address, nat> {
    map a | a in m && a in filter :: m[a]
  }

  function ProjectedRows(filter: set<Address>, records: seq<Change>, ds: seq<Deletion>): map<Key, Row> {
    Merged(BlockRows(filter, records), Selected(Greatest(ds), filter))
  }

  function ResetMarks(m: map<Address, nat>): set<Mark> {
    set a | a in m :: Mark(a, StorageReset, m[a])
  }

  function FieldMarks(nonces: seq<Change>, codes: seq<Change>): set<Mark> {
    (set i | 0 <= i < |nonces| && nonces[i].NonceChange? && nonces[i].newNonce < nonces[i].oldNonce
       :: Mark(nonces[i].address, NonceReset, nonces[i].ordinal))
    + (set i | 0 <= i < |codes| && codes[i].CodeChange? && codes[i].newCode == []
         :: Mark(codes[i].address, CodeCleared, codes[i].ordinal))
  }

  function DestructMarks(filter: set<Address>, txs: seq<Transaction>): set<Mark> {
    set i, j | 0 <= i < |txs| && txs[i].status.Succeeded? && 0 <= j < |txs[i].calls| && Destroys(txs[i].calls[j])
               && Context(txs[i].calls[j], txs[i].calls).Ok? && Context(txs[i].calls[j], txs[i].calls).value in filter
      :: Mark(Context(txs[i].calls[j], txs[i].calls).value, SelfDestruct, txs[i].calls[j].endOrdinal)
  }

  /** The patch of an acceptable block. */
  function Patch(filter: set<Address>, block: Block): BlockState
    requires Acceptable(filter, block)
  {
    var records, ds := BlockRecords(block).value, BlockDeletions(block, Time(block)).value;
    BlockState(
      block.number, block.hash, block.header.value.parentHash, Time(block), block.header.value.stateRoot,
      block.version, filter, 1, ProjectedRows(filter, records, ds).Values,
      FieldMarks(ListOf(filter, records, NonceKind), ListOf(filter, records, CodeKind))
      + DestructMarks(filter, block.transactions) + ResetMarks(Selected(Greatest(ds), filter)))
  }

  method Project(filter: set<Address>, block: Block) returns (r: Result<BlockState>)
    ensures r.Ok? <==> Acceptable(filter, block)
    ensures r.Ok? ==> r.value == Patch(filter, block)
  {
    if !Qualified(filter, block) {
      return Err("unsupported source block or filter");
    }
    var changes :- Collect(filter, block);
    ghost var records := BlockRecords(block).value;
    CollectedLists(filter, records);
    ListedRecords(filter, records);
    var rows :- CollapseInto(map[], changes.storage);
    rows :- CollapseInto(rows, changes.balances);
    rows :- CollapseInto(rows, changes.nonces);
    rows :- CollapseInto(rows, changes.codes);
    var lifecycle := FieldMarks(changes.nonces, changes.codes) + DestructMarks(filter, block.transactions);
    var deletions :- Deletions(block, Time(block));
    var m := Selected(deletions, filter);
    rows := ApplyDeletions(rows, m);
    return Ok(BlockState(
      block.number, block.hash, block.header.value.parentHash, Time(block), block.header.value.stateRoot,
      block.version, filter, 1, rows.Values, lifecycle + ResetMarks(m)));
  }

  /** A list holds exactly the kept records of its kind. */
  lemma InList(filter: set<Address>, records: seq<Change>, kind: Kind, c: Change)
    ensures c in ListOf(filter, records, kind) <==> c in records && Kept(filter, c) && KindOf(c) == kind
  {
    SortBySorts(Filter(records, Selects(filter, kind)), OrdinalOf);
    FilterMember(records, Selects(filter, kind), c);
  }

  /** The four lists hold exactly the kept records. */
  lemma ListedRecords(filter: set<Address>, records: seq<Change>)
    ensures (forall c :: c in records && Kept(filter, c) ==> ValidRecord(c)) <==>
            forall kind, i :: 0 <= i < |ListOf(filter, records, kind)| ==> ValidRecord(ListOf(filter, records, kind)[i])
  {
    forall kind, c
      ensures c in ListOf(filter, records, kind) <==> c in records && Kept(filter, c) && KindOf(c) == kind
    {
      InList(filter, records, kind, c);
    }
    if forall kind, i :: 0 <= i < |ListOf(filter, records, kind)| ==> ValidRecord(ListOf(filter, records, kind)[i]) {
      forall c | c in records && Kept(filter, c) ensures ValidRecord(c) {
        assert c in ListOf(filter, records, KindOf(c));
      }
    } else {
      var kind, i :| 0 <= i < |ListOf(filter, records, kind)| && !ValidRecord(ListOf(filter, records, kind)[i]);
      assert ListOf(filter, records, kind)[i] in ListOf(filter, records, kind);
    }
  }

  // ---------------------------------------------------------------- what a patch means

  /** At most one row per key: what makes argMax over (block, ordinal) well defined. */
  ghost predicate UniqueRows(p: BlockState) {
    forall r, q :: r in p.rows && q in p.rows && r.key == q.key ==> r == q
  }

  predicate ResetAt(p: BlockState, a: Address, ordinal: nat) {
    Mark(a, StorageReset, ordinal) in p.lifecycle
  }

  ghost predicate Resets(p: BlockState, a: Address) {
    exists o: nat :: ResetAt(p, a, o)
  }

  /** The row counts: no deletion of the account at or after it. */
  ghost predicate Effective(p: BlockState, r: Row) {
    r in p.rows && (r.key.Slot? ==> forall o: nat :: ResetAt(p, r.key.account, o) ==> o < r.ordinal)
  }

  /** The value of k after the patch, when it held v before. */
  ghost function Patched(v: Value, p: BlockState, k: Key): Value {
    if exists r :: Effective(p, r) && r.key == k then
      var r :| Effective(p, r) && r.key == k;
      r.value
    else if k.Slot? && Resets(p, k.account) then Default(k)
    else v
  }

  lemma {:induction false} CollapseKeyed(rows: map<Key, Row>, cs: seq<Change>)
    requires KeyedByThemselves(rows)
    ensures KeyedByThemselves(Collapse(rows, cs))
  {
    if cs != [] { CollapseKeyed(rows, cs[..|cs| - 1]); }
  }

  lemma ProjectedKeyed(filter: set<Address>, records: seq<Change>, ds: seq<Deletion>)
    ensures KeyedByThemselves(ProjectedRows(filter, records, ds))
  {
    var rows1 := Collapse(map[], ListOf(filter, records, StorageKind));
    var rows2 := Collapse(rows1, ListOf(filter, records, BalanceKind));
    var rows3 := Collapse(rows2, ListOf(filter, records, NonceKind));
    CollapseKeyed(map[], ListOf(filter, records, StorageKind));
    CollapseKeyed(rows1, ListOf(filter, records, BalanceKind));
    CollapseKeyed(rows2, ListOf(filter, records, NonceKind));
    CollapseKeyed(rows3, ListOf(filter, records, CodeKind));
  }

  /** The mapper emits one row per key per block. */
  lemma ProjectionUniqueRows(filter: set<Address>, block: Block)
    requires Acceptable(filter, block)
    ensures UniqueRows(Patch(filter, block))
  {
    ProjectedKeyed(filter, BlockRecords(block).value, BlockDeletions(block, Time(block)).value);
  }

  /** Every row and every reset belongs to a selected account. */
  ghost predicate WithinFilter(p: BlockState) {
    && (forall r :: r in p.rows ==> r.key.account in p.accounts)
    && (forall a, o: nat :: ResetAt(p, a, o) ==> a in p.accounts)
  }

  lemma ResetMember(nonces: seq<Change>, codes: seq<Change>, filter: set<Address>, txs: seq<Transaction>,
                    m: map<Address, nat>, a: Address, o: nat)
    ensures Mark(a, StorageReset, o) in FieldMarks(nonces, codes) + DestructMarks(filter, txs) + ResetMarks(m)
            <==> a in m && m[a] == o
  {
    assert Mark(a, StorageReset, o) !in FieldMarks(nonces, codes);
    assert Mark(a, StorageReset, o) !in DestructMarks(filter, txs);
  }

  lemma PatchResets(filter: set<Address>, block: Block, a: Address, o: nat)
    requires Acceptable(filter, block)
    ensures var m := Selected(Greatest(BlockDeletions(block, Time(block)).value), filter);
            ResetAt(Patch(filter, block), a, o) <==> a in m && m[a] == o
  {
    var records, ds := BlockRecords(block).value, BlockDeletions(block, Time(block)).value;
    ResetMember(ListOf(filter, records, NonceKind), ListOf(filter, records, CodeKind), filter, block.transactions,
                Selected(Greatest(ds), filter), a, o);
  }

  lemma {:induction false} CollapseSource(rows: map<Key, Row>, cs: seq<Change>, k: Key)
    ensures k in Collapse(rows, cs) ==> k in rows || exists c :: c in cs && KeyOf(c) == k
  {
    if cs != [] { CollapseSource(rows, cs[..|cs| - 1], k); }
  }

  lemma ListWithin(rows: map<Key, Row>, filter: set<Address>, records: seq<Change>, kind: Kind, k: Key)
    requires filter != {}
    ensures k in Collapse(rows, ListOf(filter, records, kind)) ==> k in rows || k.account in filter
  {
    CollapseSource(rows, ListOf(filter, records, kind), k);
    forall c | c in ListOf(filter, records, kind) ensures Kept(filter, c) { InList(filter, records, kind, c); }
  }

  lemma BlockRowsWithin(filter: set<Address>, records: seq<Change>, k: Key)
    requires filter != {}
    ensures k in BlockRows(filter, records) ==> k.account in filter
  {
    var rows1 := Collapse(map[], ListOf(filter, records, StorageKind));
    var rows2 := Collapse(rows1, ListOf(filter, records, BalanceKind));
    var rows3 := Collapse(rows2, ListOf(filter, records, NonceKind));
    ListWithin(map[], filter, records, StorageKind, k);
    ListWithin(rows1, filter, records, BalanceKind, k);
    ListWithin(rows2, filter, records, NonceKind, k);
    ListWithin(rows3, filter, records, CodeKind, k);
  }

  lemma ProjectionWithinFilter(filter: set<Address>, block: Block)
    requires Acceptable(filter, block)
    ensures WithinFilter(Patch(filter, block))
  {
    var p, records := Patch(filter, block), BlockRecords(block).value;
    var ds := BlockDeletions(block, Time(block)).value;
    ProjectedKeyed(filter, records, ds);
    forall r | r in p.rows ensures r.key.account in filter { BlockRowsWithin(filter, records, r.key); }
    forall a, o: nat | ResetAt(p, a, o) ensures a in filter { PatchResets(filter, block, a, o); }
  }

  /** What the refinement assumes of the trace: no-op records restate the current value, and no
      balance, nonce or code record sits exactly on its account's deletion. */
  ghost predicate WellFormed(s: State, filter: set<Address>, block: Block)
    requires Acceptable(filter, block)
  {
    var records, ds := BlockRecords(block).value, BlockDeletions(block, Time(block)).value;
    && NoOpsCurrent(s, Timeline(records, ds), filter)
    && forall c, d :: c in records && d in ds && c.address == d.account && c.address in filter && !c.StorageChange? ==>
      c.ordinal != d.ordinal
  }

  /** The last write to a field is at exactly the account's last deletion ordinal and leaves it
      nonzero: the merge keeps what the deletion should wipe. */
  predicate Tied(filter: set<Address>, block: Block, k: Key)
    requires Acceptable(filter, block)
  {
    var w, m := LastWrite(BlockRecords(block).value, k), Greatest(BlockDeletions(block, Time(block)).value);
    !k.Slot? && k.account in m && w.Some? && w.value.ordinal == m[k.account] && NewValue(w.value) != Default(k)
  }

  /** The state after the block, by replay. */
  function After(s: State, block: Block): State
    requires Replayable(block)
  {
    Run(s, Timeline(BlockRecords(block).value, BlockDeletions(block, Time(block)).value))
  }

  /** The row a patch holds for k, if any, is the merged one. */
  lemma PatchRow(filter: set<Address>, block: Block, k: Key)
    requires Acceptable(filter, block)
    ensures var records, ds := BlockRecords(block).value, BlockDeletions(block, Time(block)).value;
            var row := MergedRow(BlockRows(filter, records), Selected(Greatest(ds), filter), k);
            && (row.Some? ==> row.value.key == k)
            && forall r :: r in Patch(filter, block).rows && r.key == k <==> row == Some(r)
  {
    var records, ds := BlockRecords(block).value, BlockDeletions(block, Time(block)).value;
    ProjectedKeyed(filter, records, ds);
    MergedLookup(BlockRows(filter, records), Selected(Greatest(ds), filter), k);
    var rows := ProjectedRows(filter, records, ds);
    if k in rows { assert rows[k] in rows.Values; }
  }

  lemma PatchedByRow(p: BlockState, k: Key, v: Value, row: Option<Row>, m: map<Address, nat>)
    requires row.Some? ==> row.value.key == k
    requires forall r :: r in p.rows && r.key == k <==> row == Some(r)
    requires forall o: nat :: ResetAt(p, k.account, o) <==> k.account in m && m[k.account] == o
    requires row.Some? && k.Slot? && k.account in m ==> m[k.account] < row.value.ordinal
    ensures Patched(v, p, k) ==
            if row.Some? then row.value.value else if k.Slot? && k.account in m then Default(k) else v
  {
    if row.Some? { assert Effective(p, row.value); }
    if k.account in m { assert ResetAt(p, k.account, m[k.account]); }
  }

  /** Collapsing and merging equals replaying, for a key, exactly when its last write does not
      tie with the deletion. */
  lemma ProjectionExactness(filter: set<Address>, block: Block, s: State, k: Key)
    requires Acceptable(filter, block) && k.account in filter
    requires NoOpsCurrent(s, Timeline(BlockRecords(block).value, BlockDeletions(block, Time(block)).value), filter)
    ensures Patched(Read(s, k), Patch(filter, block), k) == Read(After(s, block), k) <==> !Tied(filter, block, k)
  {
    var records, ds := BlockRecords(block).value, BlockDeletions(block, Time(block)).value;
    var p, m := Patch(filter, block), Selected(Greatest(ds), filter);
    var row := MergedRow(BlockRows(filter, records), m, k);
    ReplayedValue(s, records, ds, filter, k);
    BlockRow(filter, records, k);
    PatchRow(filter, block, k);
    forall o: nat ensures ResetAt(p, k.account, o) <==> k.account in m && m[k.account] == o {
      PatchResets(filter, block, k.account, o);
    }
    PatchedByRow(p, k, Read(s, k), row, m);
  }

  /** On well-formed traces, collapsing to the last value per key and merging the greatest
      deletion per account equals replaying every surviving record and every deletion in order. */
  lemma ProjectionRefinesReplay(filter: set<Address>, block: Block, s: State, k: Key)
    requires Acceptable(filter, block) && WellFormed(s, filter, block) && k.account in filter
    ensures Patched(Read(s, k), Patch(filter, block), k) == Read(After(s, block), k)
  {
    ProjectionExactness(filter, block, s, k);
    GreatestMeans(BlockDeletions(block, Time(block)).value, k.account);
  }

  // ---------------------------------------------------------------- lifecycle marks

  /** A nonce_reset mark is exactly a selected surviving record that lowers the nonce, and a
      code_cleared mark exactly one that leaves no code. */
  lemma FieldMarkMeans(filter: set<Address>, block: Block, a: Address, o: nat)
    requires Acceptable(filter, block)
    ensures var p, records := Patch(filter, block), BlockRecords(block).value;
            && (Mark(a, NonceReset, o) in p.lifecycle <==>
                exists c :: c in records && Kept(filter, c) && LowersNonce(c, a, o))
            && (Mark(a, CodeCleared, o) in p.lifecycle <==>
                exists c :: c in records && Kept(filter, c) && ClearsCode(c, a, o))
  {
    var records := BlockRecords(block).value;
    NonceMarks(filter, records, a, o);
    CodeMarks(filter, records, a, o);
  }

  predicate LowersNonce(c: Change, a: Address, o: nat) {
    c.NonceChange? && c.address == a && c.ordinal == o && c.newNonce < c.oldNonce
  }

  predicate ClearsCode(c: Change, a: Address, o: nat) {
    c.CodeChange? && c.address == a && c.ordinal == o && c.newCode == []
  }

  lemma NonceMarks(filter: set<Address>, records: seq<Change>, a: Address, o: nat)
    ensures Mark(a, NonceReset, o) in FieldMarks(ListOf(filter, records, NonceKind), ListOf(filter, records, CodeKind))
            <==> exists c :: c in records && Kept(filter, c) && LowersNonce(c, a, o)
  {
    var nonces := ListOf(filter, records, NonceKind);
    if i :| 0 <= i < |nonces| && LowersNonce(nonces[i], a, o) { InList(filter, records, NonceKind, nonces[i]); }
    if c :| c in records && Kept(filter, c) && LowersNonce(c, a, o) {
      InList(filter, records, NonceKind, c);
      var i :| 0 <= i < |nonces| && nonces[i] == c;
      assert LowersNonce(nonces[i], a, o);
    }
  }

  lemma CodeMarks(filter: set<Address>, records: seq<Change>, a: Address, o: nat)
    ensures Mark(a, CodeCleared, o) in FieldMarks(ListOf(filter, records, NonceKind), ListOf(filter, records, CodeKind))
            <==> exists c :: c in records && Kept(filter, c) && ClearsCode(c, a, o)
  {
    var codes := ListOf(filter, records, CodeKind);
    if i :| 0 <= i < |codes| && ClearsCode(codes[i], a, o) { InList(filter, records, CodeKind, codes[i]); }
    if c :| c in records && Kept(filter, c) && ClearsCode(c, a, o) {
      InList(filter, records, CodeKind, c);
      var i :| 0 <= i < |codes| && codes[i] == c;
      assert ClearsCode(codes[i], a, o);
    }
  }

  // ---------------------------------------------------------------- a tie

  function TiedChange(a: Address): Change {
    BalanceChange(a, [], [1], OtherReason, 5)
  }

  function TiedTransaction(a: Address): Transaction {
    Transaction(Succeeded, false, [], 0, 5, [], [Call(0, 0, Plain, a, true, false, 1, 3, [], [TiedChange(a)], [], [])])
  }

  /** One transaction destroys the account, and its balance is written at the very ordinal at
      which the deletion takes effect. */
  function TiedBlock(a: Address): Block {
    var hash: Bytes := seq(32, _ => 7);
    Block(100, true, 5, hash, Some(Header(100, hash, hash, Some(Timestamp(1000, 0)))), [], [], [], [TiedTransaction(a)])
  }

  lemma TiedSurvivors(a: Address)
    ensures CommittedRecords(TiedTransaction(a).calls) == [TiedChange(a)]
  {
    var calls := TiedTransaction(a).calls;
    assert calls[..0] == [];
    assert CommittedRecords(calls) == CommittedRecords([]) + CallRecords(calls[0]);
  }

  lemma TiedRecords(a: Address)
    ensures BlockRecords(TiedBlock(a)) == Ok([TiedChange(a)])
  {
    var block := TiedBlock(a);
    TiedSurvivors(a);
    assert block.transactions[..0] == [];
    assert SurvivingAll(block.transactions) == Ok([] + [TiedChange(a)]);
    var all := BlockRecords(block).value;
    assert |all| == 1 && all[0] == TiedChange(a);
    assert all == [TiedChange(a)];
  }

  lemma TiedDeletions(a: Address)
    ensures BlockDeletions(TiedBlock(a), 1000) == Ok([Deletion(a, 5)])
  {
    var block, tx := TiedBlock(a), TiedTransaction(a);
    assert ScheduledBy(tx, 1000, 0) == Ok([]);
    assert ScheduledBy(tx, 1000, 1) == Ok([] + [Deletion(a, 5)]);
    assert block.transactions[..0] == [];
    assert Scheduled(block.transactions, 1000) == Ok([] + ([] + [Deletion(a, 5)]));
    var all := BlockDeletions(block, 1000).value;
    assert |all| == 1 && all[0] == Deletion(a, 5);
    assert all == [Deletion(a, 5)];
  }

  lemma TiedQualified(a: Address)
    ensures Qualified({a}, TiedBlock(a)) && Time(TiedBlock(a)) == 1000
  {
  }

  lemma TiedWrite(a: Address)
    ensures LastWrite([TiedChange(a)], Balance(a)) == Some(TiedChange(a)) && NewValue(TiedChange(a)) == Num(1)
    ensures Greatest([Deletion(a, 5)]) == map[a := 5]
  {
    assert BigEndian([1]) == 1;
    assert Writes(TiedChange(a), Balance(a)) && TiedChange(a) in [TiedChange(a)];
    assert [Deletion(a, 5)][..0] == [];
    assert Greatest([Deletion(a, 5)]) == map[][a := 5];
  }

  lemma TiedAcceptable(a: Address)
    ensures Acceptable({a}, TiedBlock(a)) && Tied({a}, TiedBlock(a), Balance(a))
  {
    TiedQualified(a);
    TiedRecords(a);
    TiedDeletions(a);
    TiedWrite(a);
  }

  lemma TiedNoOps(a: Address)
    ensures NoOpsCurrent(map[], Timeline([TiedChange(a)], [Deletion(a, 5)]), {a})
  {
    var events := Timeline([TiedChange(a)], [Deletion(a, 5)]);
    assert [TiedChange(a)][..0] == [] && [Deletion(a, 5)][..0] == [];
    assert Records([TiedChange(a)]) == [Record(TiedChange(a))] && Wipes([Deletion(a, 5)]) == [Wipe(a, 5)];
    SortBySorts(Records([TiedChange(a)]) + Wipes([Deletion(a, 5)]), At);
    forall i | 0 <= i < |events| && events[i].Record? ensures !NoOp(events[i].change) { assert events[i] in events; }
  }

  /** The tie: replay leaves the deleted account empty, the patch leaves it one wei. */
  lemma TieKeepsBalance(a: Address)
    ensures Acceptable({a}, TiedBlock(a))
    ensures Patched(Num(0), Patch({a}, TiedBlock(a)), Balance(a)) != Read(After(map[], TiedBlock(a)), Balance(a))
  {
    TiedAcceptable(a);
    TiedRecords(a);
    TiedDeletions(a);
    TiedNoOps(a);
    ProjectionExactness({a}, TiedBlock(a), map[], Balance(a));
  }
}
