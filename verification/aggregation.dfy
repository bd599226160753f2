/** Checkpoint aggregation: argMax over (block, ordinal) positions, masked by the latest
    reset per account, against block-by-block application of the patches. */
module Aggregation {
  import opened Words
  import opened Trace
  import opened Projection
  import Replay

  datatype Position = Position(block: nat, ordinal: nat)

  predicate Before(p: Position, q: Position) {
    p.block < q.block || (p.block == q.block && p.ordinal < q.ordinal)
  }

  datatype Version = Version(key: Key, value: Value, position: Position)

  datatype Reset = Reset(account: Address, position: Position)

  // ---------------------------------------------------------------- tables

  /** A compacted prefix of a source: everything up to and including `number`. */
  datatype Prefix = Prefix(number: nat, storage: map<Key, Value>, fields: map<Key, Value>)

  /** A published generation used as a base. */
  datatype Checkpoint = Checkpoint(
    number: nat, accounts: set<Address>, storage: map<Key, Value>, fields: map<Key, Value>)

  /** A native source; `blocks` is its deduplicated block table. */
  datatype Source = Source(cohort: set<Address>, start: nat, blocks: map<nat, BlockState>, prefix: Option<Prefix>)

  function DeltaStart(s: Source): nat {
    if s.prefix.Some? then s.prefix.value.number + 1 else s.start
  }

  // ---------------------------------------------------------------- the queries

  ghost function At(storage: map<Key, Value>, number: nat): set<Version> {
    set k | k in storage :: Version(k, storage[k], Position(number, 0))
  }

  /** The storage rows of the blocks from..end, flattened. */
  ghost function DeltaVersions(s: Source, end: nat, slots: bool): set<Version> {
    set n, r | n in s.blocks && DeltaStart(s) <= n <= end && r in s.blocks[n].rows && r.key.Slot? == slots
      :: Version(r.key, r.value, Position(n, r.ordinal))
  }

  ghost function SourceVersions(s: Source, end: nat): set<Version> {
    DeltaVersions(s, end, true) + if s.prefix.Some? then At(s.prefix.value.storage, s.prefix.value.number) else {}
  }

  ghost function SourceResets(s: Source, end: nat): set<Reset> {
    set n, m | n in s.blocks && DeltaStart(s) <= n <= end && m in s.blocks[n].lifecycle && m.kind.StorageReset?
      :: Reset(m.account, Position(n, m.ordinal))
  }

  ghost function UnionStorage(sources: seq<Source>, base: Option<Checkpoint>, end: nat): set<Version> {
    (set i, v | 0 <= i < |sources| && v in SourceVersions(sources[i], end) :: v)
    + if base.Some? then At(base.value.storage, base.value.number) else {}
  }

  ghost function UnionResets(sources: seq<Source>, end: nat): set<Reset> {
    set i, x | 0 <= i < |sources| && x in SourceResets(sources[i], end) :: x
  }

  /** Versions not at or before a reset of their account. */
  ghost function Visible(versions: set<Version>, resets: set<Reset>): set<Version> {
    set v | v in versions && forall x :: x in resets && x.account == v.key.account ==> Before(x.position, v.position)
  }

  /** v is a version of its key that no other version follows. */
  ghost predicate Winner(versions: set<Version>, v: Version) {
    v in versions && forall u :: u in versions && u.key == v.key ==> !Before(v.position, u.position)
  }

  ghost function Keys(versions: set<Version>): set<Key> {
    set v | v in versions :: v.key
  }

  ghost function ArgMax(versions: set<Version>, k: Key): Value
    requires k in Keys(versions)
  {
    WinnerExists(versions, k);
    var v :| Winner(versions, v) && v.key == k;
    v.value
  }

  lemma WinnerExists(versions: set<Version>, k: Key)
    requires k in Keys(versions)
    ensures exists v :: Winner(versions, v) && v.key == k
  {
    var own := set v | v in versions && v.key == k;
    var some :| some in versions && some.key == k;
    assert some in own;
    var v := Last(own);
    assert Winner(versions, v);
  }

  lemma {:induction false} Last(own: set<Version>) returns (v: Version)
    requires own != {}
    ensures v in own && forall u :: u in own ==> !Before(v.position, u.position)
  {
    var x :| x in own;
    if own == {x} {
      v := x;
    } else {
      var y := Last(own - {x});
      v := if Before(y.position, x.position) then x else y;
    }
  }

  /** GROUP BY key, argMax, HAVING a nonzero value. */
  ghost function Nonzero(versions: set<Version>): map<Key, Value> {
    map k | k in Keys(versions) && ArgMax(versions, k) != Default(k) :: ArgMax(versions, k)
  }

  ghost function AggregateStorage(sources: seq<Source>, base: Option<Checkpoint>, end: nat): map<Key, Value> {
    Nonzero(Visible(UnionStorage(sources, base, end), UnionResets(sources, end)))
  }

  /** The last field values of the blocks from..end. */
  ghost function DeltaFields(s: Source, end: nat): map<Key, Value> {
    var versions := DeltaVersions(s, end, false);
    map k | k in Keys(versions) :: ArgMax(versions, k)
  }

  ghost function OwnFields(s: Source, end: nat): map<Key, Value> {
    (if s.prefix.Some? then s.prefix.value.fields else map[]) + DeltaFields(s, end)
  }

  /** Base fields, overlaid source by source with prefix fields and observed fields. */
  ghost function ObservedFields(sources: seq<Source>, base: Option<Checkpoint>, end: nat): map<Key, Value> {
    if sources == [] then if base.Some? then base.value.fields else map[]
    else ObservedFields(sources[..|sources| - 1], base, end) + OwnFields(sources[|sources| - 1], end)
  }

  // ---------------------------------------------------------------- sequential application

  /** Applies the n blocks from, from+1, ... one by one to what k holds. */
  ghost function Fold(v: Value, blocks: map<nat, BlockState>, from: nat, n: nat, k: Key): Value {
    if n == 0 then v
    else
      var before := Fold(v, blocks, from, n - 1, k);
      if from + n - 1 in blocks then Patched(before, blocks[from + n - 1], k) else before
  }

  // ---------------------------------------------------------------- one key

  /** The versions of k: an initial one just before `from` and those of the n blocks. */
  ghost function KeyVersions(initial: Option<Version>, blocks: map<nat, BlockState>, from: nat, n: nat,
                             k: Key): set<Version> {
    (set b, r | b in blocks && from <= b < from + n && r in blocks[b].rows && r.key == k
       :: Version(k, r.value, Position(b, r.ordinal)))
    + if initial.Some? then {initial.value} else {}
  }

  ghost function KeyResets(blocks: map<nat, BlockState>, from: nat, n: nat, k: Key): set<Position> {
    if !k.Slot? then {}
    else set b, m | b in blocks && from <= b < from + n && m in blocks[b].lifecycle
                    && m.kind.StorageReset? && m.account == k.account
           :: Position(b, m.ordinal)
  }

  ghost function Survivors(initial: Option<Version>, blocks: map<nat, BlockState>, from: nat, n: nat,
                           k: Key): set<Version> {
    set v | v in KeyVersions(initial, blocks, from, n, k)
            && forall p :: p in KeyResets(blocks, from, n, k) ==> Before(p, v.position)
  }

  ghost predicate Initial(initial: Option<Version>, from: nat, k: Key, v: Value) {
    if initial.Some? then initial.value.key == k && initial.value.value == v && initial.value.position.block < from
    else k.Slot? ==> v == Default(k)
  }

  /** What the aggregation must say about k. */
  ghost predicate Agrees(versions: set<Version>, v: Value, none: Value) {
    && (versions == {} ==> v == none)
    && (forall u :: Winner(versions, u) ==> u.value == v)
  }

  /** The version a row of block b contributes. */
  function VersionOf(r: Row, b: nat): Version {
    Version(r.key, r.value, Position(b, r.ordinal))
  }

  lemma ResetIn(blocks: map<nat, BlockState>, from: nat, n: nat, k: Key, q: Position)
    requires k.Slot?
    ensures q in KeyResets(blocks, from, n, k) <==>
            q.block in blocks && from <= q.block < from + n && ResetAt(blocks[q.block], k.account, q.ordinal)
  {
    if q.block in blocks && from <= q.block < from + n && ResetAt(blocks[q.block], k.account, q.ordinal) {
      assert Mark(k.account, StorageReset, q.ordinal) in blocks[q.block].lifecycle;
    }
  }

  /** A row of the last block survives exactly when it is effective in its patch. */
  lemma NewSurvivor(initial: Option<Version>, blocks: map<nat, BlockState>, from: nat, n: nat, k: Key, r: Row)
    requires n > 0 && from + n - 1 in blocks && r.key == k && r in blocks[from + n - 1].rows
    ensures VersionOf(r, from + n - 1) in Survivors(initial, blocks, from, n, k) <==> Effective(blocks[from + n - 1], r)
  {
    var b := from + n - 1;
    var v := VersionOf(r, b);
    assert v in KeyVersions(initial, blocks, from, n, k);
    if k.Slot? {
      forall q ensures q in KeyResets(blocks, from, n, k) <==>
        q.block in blocks && from <= q.block < from + n && ResetAt(blocks[q.block], k.account, q.ordinal)
      {
        ResetIn(blocks, from, n, k, q);
      }
      if v in Survivors(initial, blocks, from, n, k) {
        forall o: nat | ResetAt(blocks[b], k.account, o) ensures o < r.ordinal {
          assert Position(b, o) in KeyResets(blocks, from, n, k);
        }
      }
    }
  }

  /** An older version survives the last block exactly when that block does not reset the account. */
  lemma OldSurvivor(initial: Option<Version>, blocks: map<nat, BlockState>, from: nat, n: nat, k: Key, v: Version)
    requires n > 0 && from + n - 1 in blocks && v.position.block < from + n - 1
    ensures v in Survivors(initial, blocks, from, n, k) <==>
            v in Survivors(initial, blocks, from, n - 1, k) && !(k.Slot? && Resets(blocks[from + n - 1], k.account))
  {
    var b := from + n - 1;
    assert v in KeyVersions(initial, blocks, from, n, k) <==> v in KeyVersions(initial, blocks, from, n - 1, k);
    if k.Slot? {
      forall q ensures q in KeyResets(blocks, from, n, k) <==>
        q in KeyResets(blocks, from, n - 1, k) || (q.block == b && ResetAt(blocks[b], k.account, q.ordinal))
      {
        ResetIn(blocks, from, n, k, q);
        ResetIn(blocks, from, n - 1, k, q);
      }
      if Resets(blocks[b], k.account) {
        var o: nat :| ResetAt(blocks[b], k.account, o);
        assert Position(b, o) in KeyResets(blocks, from, n, k);
      }
    }
  }

  /** No survivor lies beyond the last block, and one in the last block is a row of it. */
  lemma SurvivorOrigin(initial: Option<Version>, blocks: map<nat, BlockState>, from: nat, n: nat, k: Key, v: Version)
    requires initial.Some? ==> initial.value.key == k && initial.value.position.block < from
    requires v in Survivors(initial, blocks, from, n, k)
    ensures v.key == k && v.position.block < from + n
    ensures v.position.block >= from ==> v.position.block in blocks
    ensures v.position.block >= from ==>
      exists r :: r in blocks[v.position.block].rows && r.key == k && v == VersionOf(r, v.position.block)
  {
    if v.position.block >= from {
      var b, r :| b in blocks && from <= b < from + n && r in blocks[b].rows && r.key == k
        && v == Version(k, r.value, Position(b, r.ordinal));
    }
  }

  /** An effective row of the last block wins. */
  lemma WinnerNew(initial: Option<Version>, blocks: map<nat, BlockState>, from: nat, n: nat, k: Key, r: Row, u: Version)
    requires n > 0 && from + n - 1 in blocks && UniqueRows(blocks[from + n - 1])
    requires initial.Some? ==> initial.value.key == k && initial.value.position.block < from
    requires Effective(blocks[from + n - 1], r) && r.key == k
    requires Winner(Survivors(initial, blocks, from, n, k), u)
    ensures u.value == r.value
  {
    NewSurvivor(initial, blocks, from, n, k, r);
    SurvivorOrigin(initial, blocks, from, n, k, u);
    assert !Before(u.position, VersionOf(r, from + n - 1).position);
  }

  /** Without an effective row, the last block keeps the survivors or wipes them all. */
  lemma SurvivorsKept(initial: Option<Version>, blocks: map<nat, BlockState>, from: nat, n: nat, k: Key, u: Version)
    requires n > 0 && from + n - 1 in blocks
    requires initial.Some? ==> initial.value.key == k && initial.value.position.block < from
    requires forall r :: Effective(blocks[from + n - 1], r) ==> r.key != k
    ensures u in Survivors(initial, blocks, from, n, k) <==>
            u in Survivors(initial, blocks, from, n - 1, k) && !(k.Slot? && Resets(blocks[from + n - 1], k.account))
  {
    var b := from + n - 1;
    if u in Survivors(initial, blocks, from, n - 1, k) { SurvivorOrigin(initial, blocks, from, n - 1, k, u); }
    if u in Survivors(initial, blocks, from, n, k) {
      SurvivorOrigin(initial, blocks, from, n, k, u);
      if u.position.block == b {
        var r :| r in blocks[b].rows && r.key == k && u == VersionOf(r, b);
        NewSurvivor(initial, blocks, from, n, k, r);
      }
    }
    if u.position.block < b { OldSurvivor(initial, blocks, from, n, k, u); }
  }

  lemma WinnerStep(initial: Option<Version>, blocks: map<nat, BlockState>, from: nat, n: nat, k: Key, v: Value,
                   none: Value)
    requires n > 0 && from + n - 1 in blocks && UniqueRows(blocks[from + n - 1])
    requires initial.Some? ==> initial.value.key == k && initial.value.position.block < from
    requires k.Slot? ==> none == Default(k)
    requires Agrees(Survivors(initial, blocks, from, n - 1, k), v, none)
    ensures Agrees(Survivors(initial, blocks, from, n, k), Patched(v, blocks[from + n - 1], k), none)
  {
    var before, s := Survivors(initial, blocks, from, n - 1, k), Survivors(initial, blocks, from, n, k);
    var p := blocks[from + n - 1];
    if r :| Effective(p, r) && r.key == k {
      NewSurvivor(initial, blocks, from, n, k, r);
      forall u | Winner(s, u) ensures u.value == Patched(v, p, k) {
        forall q | Effective(p, q) && q.key == k ensures u.value == q.value {
          WinnerNew(initial, blocks, from, n, k, q, u);
        }
      }
    } else {
      forall u ensures u in s <==> u in before && !(k.Slot? && Resets(p, k.account)) {
        SurvivorsKept(initial, blocks, from, n, k, u);
      }
      if k.Slot? && Resets(p, k.account) { assert s == {}; } else { assert s == before; }
    }
  }

  lemma WinnerStart(initial: Option<Version>, blocks: map<nat, BlockState>, from: nat, k: Key, v: Value)
    requires Initial(initial, from, k, v)
    ensures Agrees(Survivors(initial, blocks, from, 0, k), v, if k.Slot? then Default(k) else v)
  {
    assert KeyVersions(initial, blocks, from, 0, k) == if initial.Some? then {initial.value} else {};
    assert KeyResets(blocks, from, 0, k) == {};
    assert initial.Some? ==> initial.value in Survivors(initial, blocks, from, 0, k);
  }

  lemma SurvivorsGap(initial: Option<Version>, blocks: map<nat, BlockState>, from: nat, n: nat, k: Key)
    requires n > 0 && from + n - 1 !in blocks
    ensures Survivors(initial, blocks, from, n, k) == Survivors(initial, blocks, from, n - 1, k)
  {
    assert KeyVersions(initial, blocks, from, n, k) == KeyVersions(initial, blocks, from, n - 1, k);
    assert KeyResets(blocks, from, n, k) == KeyResets(blocks, from, n - 1, k);
  }

  /** One key: the winner among the survivors is what block-by-block application leaves. */
  lemma {:induction false} WinnerIsFold(initial: Option<Version>, blocks: map<nat, BlockState>, from: nat, n: nat,
                                        k: Key, v: Value)
    requires Initial(initial, from, k, v)
    requires forall b :: b in blocks ==> UniqueRows(blocks[b])
    ensures Agrees(Survivors(initial, blocks, from, n, k), Fold(v, blocks, from, n, k),
                   if k.Slot? then Default(k) else v)
  {
    hide Survivors, Agrees;
    if n == 0 {
      WinnerStart(initial, blocks, from, k, v);
    } else {
      WinnerIsFold(initial, blocks, from, n - 1, k, v);
      WinnerNext(initial, blocks, from, n, k, v, if k.Slot? then Default(k) else v);
    }
  }

  lemma WinnerNext(initial: Option<Version>, blocks: map<nat, BlockState>, from: nat, n: nat, k: Key, v: Value,
                   none: Value)
    requires n > 0 && (from + n - 1 in blocks ==> UniqueRows(blocks[from + n - 1]))
    requires initial.Some? ==> initial.value.key == k && initial.value.position.block < from
    requires k.Slot? ==> none == Default(k)
    requires Agrees(Survivors(initial, blocks, from, n - 1, k), Fold(v, blocks, from, n - 1, k), none)
    ensures Agrees(Survivors(initial, blocks, from, n, k), Fold(v, blocks, from, n, k), none)
  {
    if from + n - 1 in blocks {
      WinnerStep(initial, blocks, from, n, k, Fold(v, blocks, from, n - 1, k), none);
    } else {
      SurvivorsGap(initial, blocks, from, n, k);
    }
  }

  // ---------------------------------------------------------------- whole checkpoints

  ghost predicate SlotsOf(m: map<Key, Value>, accounts: set<Address>) {
    forall k :: k in m ==> k.Slot? && k.account in accounts && m[k] != Default(k)
  }

  ghost predicate FieldsOf(m: map<Key, Value>, accounts: set<Address>) {
    forall k :: k in m ==> !k.Slot? && k.account in accounts
  }

  ghost predicate ValidBlocks(blocks: map<nat, BlockState>, cohort: set<Address>) {
    forall n :: n in blocks ==> UniqueRows(blocks[n]) && WithinFilter(blocks[n]) && blocks[n].accounts == cohort
  }

  ghost predicate ValidSource(s: Source) {
    && ValidBlocks(s.blocks, s.cohort)
    && (s.prefix.Some? ==> s.start <= s.prefix.value.number)
    && (s.prefix.Some? ==> SlotsOf(s.prefix.value.storage, s.cohort))
    && (s.prefix.Some? ==> FieldsOf(s.prefix.value.fields, s.cohort))
  }

  ghost predicate ValidBase(base: Option<Checkpoint>) {
    base.Some? ==> SlotsOf(base.value.storage, base.value.accounts) && FieldsOf(base.value.fields, base.value.accounts)
  }

  /** A source that shares accounts with the base continues immediately after it, uncompacted. */
  ghost predicate Continues(s: Source, base: Option<Checkpoint>) {
    base.Some? && s.cohort * base.value.accounts != {} ==> s.start == base.value.number + 1 && s.prefix.None?
  }

  /** Sources whose cohorts do not overlap, over a base they may share accounts with. */
  ghost predicate Separate(sources: seq<Source>, base: Option<Checkpoint>) {
    && ValidBase(base)
    && (forall i :: 0 <= i < |sources| ==> ValidSource(sources[i]))
    && (forall i, j :: 0 <= i < j < |sources| ==> sources[i].cohort !! sources[j].cohort)
  }

  ghost predicate Coherent(sources: seq<Source>, base: Option<Checkpoint>) {
    Separate(sources, base) && forall i :: 0 <= i < |sources| ==> Continues(sources[i], base)
  }

  /** What the source starts from: its prefix, else the base, else nothing. */
  function StartingSlots(s: Source, base: Option<Checkpoint>): map<Key, Value> {
    if s.prefix.Some? then s.prefix.value.storage else if base.Some? then base.value.storage else map[]
  }

  function StartingVersion(s: Source, base: Option<Checkpoint>, k: Key): Option<Version> {
    var slots := StartingSlots(s, base);
    if k !in slots then None
    else Some(Version(k, slots[k], Position(if s.prefix.Some? then s.prefix.value.number else base.value.number, 0)))
  }

  function Delta(s: Source, end: nat): nat
    requires DeltaStart(s) <= end + 1
  {
    end + 1 - DeltaStart(s)
  }

  lemma OtherSources(sources: seq<Source>, base: Option<Checkpoint>, end: nat, i: nat, j: nat, k: Key)
    requires Separate(sources, base) && i < |sources| && j < |sources| && i != j && k.account in sources[i].cohort
    ensures forall v :: v in SourceVersions(sources[j], end) ==> v.key != k
    ensures forall x :: x in SourceResets(sources[j], end) ==> x.account != k.account
  {
    assert sources[i].cohort !! sources[j].cohort;
    forall v | v in SourceVersions(sources[j], end) ensures v.key.account in sources[j].cohort {
    }
    forall x | x in SourceResets(sources[j], end) ensures x.account in sources[j].cohort {
      assert ResetAt(sources[j].blocks[x.position.block], x.account, x.position.ordinal);
    }
  }

  /** The versions of a key come from its own source and from the base. */
  lemma UnionOfKey(sources: seq<Source>, base: Option<Checkpoint>, end: nat, i: nat, k: Key, v: Version)
    requires Separate(sources, base) && i < |sources| && k.account in sources[i].cohort && v.key == k
    ensures v in UnionStorage(sources, base, end) <==>
            v in SourceVersions(sources[i], end) || (base.Some? && v in At(base.value.storage, base.value.number))
  {
    forall j | 0 <= j < |sources| && j != i ensures v !in SourceVersions(sources[j], end) {
      OtherSources(sources, base, end, i, j, k);
    }
    assert v in SourceVersions(sources[i], end) ==> v in UnionStorage(sources, base, end);
  }

  lemma VersionsOfKey(sources: seq<Source>, base: Option<Checkpoint>, end: nat, i: nat, k: Key, v: Version)
    requires Coherent(sources, base) && i < |sources| && k.Slot? && k.account in sources[i].cohort
    requires DeltaStart(sources[i]) <= end + 1
    ensures var s := sources[i];
            v in UnionStorage(sources, base, end) && v.key == k <==>
            v in KeyVersions(StartingVersion(s, base, k), s.blocks, DeltaStart(s), Delta(s, end), k)
  {
    if base.Some? && k in base.value.storage { assert k.account in sources[i].cohort * base.value.accounts; }
    if v.key == k { UnionOfKey(sources, base, end, i, k, v); }
  }

  lemma ResetsOfKey(sources: seq<Source>, base: Option<Checkpoint>, end: nat, i: nat, k: Key, p: Position)
    requires Separate(sources, base) && i < |sources| && k.Slot? && k.account in sources[i].cohort
    requires DeltaStart(sources[i]) <= end + 1
    ensures var s := sources[i];
            Reset(k.account, p) in UnionResets(sources, end) <==>
            p in KeyResets(s.blocks, DeltaStart(s), Delta(s, end), k)
  {
    var s, x := sources[i], Reset(k.account, p);
    forall j | 0 <= j < |sources| && j != i ensures x !in SourceResets(sources[j], end) {
      OtherSources(sources, base, end, i, j, k);
    }
    assert x in UnionResets(sources, end) <==> x in SourceResets(s, end);
  }

  /** For one key, union, mask and argMax see exactly the survivors of its own source. */
  lemma VisibleKey(sources: seq<Source>, base: Option<Checkpoint>, end: nat, i: nat, k: Key)
    requires Coherent(sources, base) && i < |sources| && k.Slot? && k.account in sources[i].cohort
    requires DeltaStart(sources[i]) <= end + 1
    ensures var s := sources[i];
            (set v | v in Visible(UnionStorage(sources, base, end), UnionResets(sources, end)) && v.key == k)
            == Survivors(StartingVersion(s, base, k), s.blocks, DeltaStart(s), Delta(s, end), k)
  {
    var s, resets := sources[i], UnionResets(sources, end);
    forall p ensures Reset(k.account, p) in resets <==> p in KeyResets(s.blocks, DeltaStart(s), Delta(s, end), k) {
      ResetsOfKey(sources, base, end, i, k, p);
    }
    forall v ensures v in Visible(UnionStorage(sources, base, end), resets) && v.key == k <==>
      v in Survivors(StartingVersion(s, base, k), s.blocks, DeltaStart(s), Delta(s, end), k)
    {
      VersionsOfKey(sources, base, end, i, k, v);
      if v.key == k && v in Survivors(StartingVersion(s, base, k), s.blocks, DeltaStart(s), Delta(s, end), k) {
        forall x | x in resets && x.account == k.account ensures Before(x.position, v.position) {
          assert x == Reset(k.account, x.position);
        }
      }
    }
  }

  lemma ArgMaxOfKey(versions: set<Version>, own: set<Version>, k: Key, v: Value, none: Value)
    requires own == set u | u in versions && u.key == k
    requires Agrees(own, v, none)
    ensures k in Keys(versions) <==> own != {}
    ensures k in Keys(versions) ==> ArgMax(versions, k) == v
    ensures k !in Keys(versions) ==> v == none
  {
    if k in Keys(versions) {
      forall u | Winner(versions, u) && u.key == k ensures u.value == v { assert Winner(own, u); }
      WinnerExists(versions, k);
    }
    KeyPresent(versions, own, k);
  }

  lemma KeyPresent(versions: set<Version>, own: set<Version>, k: Key)
    requires own == set u | u in versions && u.key == k
    ensures k in Keys(versions) <==> own != {}
  {
    if k in Keys(versions) {
      var u :| u in versions && u.key == k;
      assert u in own;
    }
    if u :| u in own {
      assert u in versions && u.key == k;
      assert u.key in Keys(versions);
    }
  }

  /** Union, reset mask, argMax and zero removal give exactly the nonzero slots that applying
      the patches block by block to the base or prefix leaves. */
  lemma AggregationIsSequential(sources: seq<Source>, base: Option<Checkpoint>, end: nat, i: nat, k: Key)
    requires Coherent(sources, base) && i < |sources| && k.Slot? && k.account in sources[i].cohort
    requires DeltaStart(sources[i]) <= end + 1
    ensures var s, result := sources[i], AggregateStorage(sources, base, end);
            var v := Fold(Replay.Read(StartingSlots(s, base), k), s.blocks, DeltaStart(s), Delta(s, end), k);
            Replay.Read(result, k) == v && (k in result <==> v != Default(k))
  {
    var s, visible := sources[i], Visible(UnionStorage(sources, base, end), UnionResets(sources, end));
    var v := Replay.Read(StartingSlots(s, base), k);
    var starting := StartingVersion(s, base, k);
    if base.Some? && k in base.value.storage { assert k.account in s.cohort * base.value.accounts; }
    VisibleKey(sources, base, end, i, k);
    WinnerIsFold(starting, s.blocks, DeltaStart(s), Delta(s, end), k, v);
    ArgMaxOfKey(visible, Survivors(starting, s.blocks, DeltaStart(s), Delta(s, end), k), k,
                Fold(v, s.blocks, DeltaStart(s), Delta(s, end), k), Default(k));
  }

  /** The argMax of every slot has one winner ... */
  lemma UniqueWinner(sources: seq<Source>, base: Option<Checkpoint>, end: nat, i: nat, u: Version, w: Version)
    requires Coherent(sources, base) && i < |sources| && u.key.Slot? && u.key.account in sources[i].cohort
    requires DeltaStart(sources[i]) <= end + 1
    requires u.key == w.key
    requires var visible := Visible(UnionStorage(sources, base, end), UnionResets(sources, end));
             Winner(visible, u) && Winner(visible, w)
    ensures u == w
  {
    var s, k := sources[i], u.key;
    if base.Some? && k in base.value.storage { assert k.account in s.cohort * base.value.accounts; }
    VersionsOfKey(sources, base, end, i, k, u);
    VersionsOfKey(sources, base, end, i, k, w);
    assert !Before(u.position, w.position) && !Before(w.position, u.position);
  }

  /** ... and so has that of every field, so the two argMax that read a code's hash and its
      bytes read them from one row. */
  lemma UniqueFieldWinner(s: Source, end: nat, u: Version, w: Version)
    requires ValidSource(s) && u.key == w.key
    requires Winner(DeltaVersions(s, end, false), u) && Winner(DeltaVersions(s, end, false), w)
    ensures u == w
  {
    assert !Before(u.position, w.position) && !Before(w.position, u.position);
    assert UniqueRows(s.blocks[u.position.block]);
  }

  lemma AggregateWithin(sources: seq<Source>, base: Option<Checkpoint>, end: nat, k: Key)
    requires Separate(sources, base) && k in AggregateStorage(sources, base, end)
    ensures k.Slot? && AggregateStorage(sources, base, end)[k] != Default(k)
    ensures (exists i :: 0 <= i < |sources| && k.account in sources[i].cohort)
            || (base.Some? && k.account in base.value.accounts)
  {
    var visible := Visible(UnionStorage(sources, base, end), UnionResets(sources, end));
    var v :| v in visible && v.key == k;
    VersionWithin(sources, base, end, v);
  }

  lemma VersionWithin(sources: seq<Source>, base: Option<Checkpoint>, end: nat, v: Version)
    requires Separate(sources, base) && v in UnionStorage(sources, base, end)
    ensures v.key.Slot?
    ensures (exists i :: 0 <= i < |sources| && v.key.account in sources[i].cohort)
            || (base.Some? && v.key.account in base.value.accounts)
  {
    if v !in (if base.Some? then At(base.value.storage, base.value.number) else {}) {
      var i :| 0 <= i < |sources| && v in SourceVersions(sources[i], end);
      assert v.key.account in sources[i].cohort;
    }
  }

  // ---------------------------------------------------------------- observed fields

  lemma OwnField(s: Source, end: nat, k: Key, v: Value)
    requires ValidSource(s) && !k.Slot? && DeltaStart(s) <= end + 1
    requires s.prefix.Some? && k in s.prefix.value.fields ==> v == s.prefix.value.fields[k]
    ensures Fold(v, s.blocks, DeltaStart(s), Delta(s, end), k)
            == if k in OwnFields(s, end) then OwnFields(s, end)[k] else v
  {
    var versions := DeltaVersions(s, end, false);
    var own := Survivors(None, s.blocks, DeltaStart(s), Delta(s, end), k);
    assert own == set u | u in versions && u.key == k;
    WinnerIsFold(None, s.blocks, DeltaStart(s), Delta(s, end), k, v);
    ArgMaxOfKey(versions, own, k, Fold(v, s.blocks, DeltaStart(s), Delta(s, end), k), v);
  }

  lemma OwnFieldsWithin(s: Source, end: nat, k: Key)
    requires ValidSource(s) && k in OwnFields(s, end)
    ensures !k.Slot? && k.account in s.cohort
  {
    if k in DeltaFields(s, end) {
      var v :| v in DeltaVersions(s, end, false) && v.key == k;
    }
  }

  lemma NotOthers(sources: seq<Source>, base: Option<Checkpoint>, end: nat, i: nat, j: nat, k: Key)
    requires Separate(sources, base) && i < |sources| && j < |sources| && i != j && k.account in sources[i].cohort
    ensures k !in OwnFields(sources[j], end)
  {
    assert sources[i].cohort !! sources[j].cohort;
    if k in OwnFields(sources[j], end) { OwnFieldsWithin(sources[j], end, k); }
  }

  /** The overlay of the sources before i says about k what the base says. */
  lemma {:induction false} OverlayBelow(sources: seq<Source>, base: Option<Checkpoint>, end: nat, n: nat, i: nat,
                                        k: Key)
    requires Separate(sources, base) && n <= i < |sources| && k.account in sources[i].cohort
    ensures var obs, below := ObservedFields(sources[..n], base, end), if base.Some? then base.value.fields else map[];
            (k in obs <==> k in below) && (k in obs ==> obs[k] == below[k])
  {
    hide OwnFields;
    if n > 0 {
      OverlayBelow(sources, base, end, n - 1, i, k);
      NotOthers(sources, base, end, i, n - 1, k);
      assert sources[..n][..n - 1] == sources[..n - 1];
    }
  }

  lemma {:induction false} OverlayUpTo(sources: seq<Source>, base: Option<Checkpoint>, end: nat, n: nat, i: nat, k: Key)
    requires Separate(sources, base) && i < n <= |sources| && k.account in sources[i].cohort
    ensures var obs, own := ObservedFields(sources[..n], base, end), OwnFields(sources[i], end);
            var below := if base.Some? then base.value.fields else map[];
            (k in obs <==> k in own || k in below) && (k in obs ==> obs[k] == if k in own then own[k] else below[k])
  {
    hide OwnFields;
    assert sources[..n][..n - 1] == sources[..n - 1];
    if i < n - 1 {
      OverlayUpTo(sources, base, end, n - 1, i, k);
      NotOthers(sources, base, end, i, n - 1, k);
    } else {
      OverlayBelow(sources, base, end, n - 1, i, k);
    }
  }

  lemma OverlayKey(sources: seq<Source>, base: Option<Checkpoint>, end: nat, i: nat, k: Key)
    requires Separate(sources, base) && i < |sources| && k.account in sources[i].cohort
    ensures var obs, own := ObservedFields(sources, base, end), OwnFields(sources[i], end);
            var below := if base.Some? then base.value.fields else map[];
            (k in obs <==> k in own || k in below) && (k in obs ==> obs[k] == if k in own then own[k] else below[k])
  {
    OverlayUpTo(sources, base, end, |sources|, i, k);
    assert sources[..|sources|] == sources;
  }

  /** Observed balances, nonces and codes are what applying the patches one by one leaves;
      a field that is not observed was never written. */
  lemma ObservedIsSequential(sources: seq<Source>, base: Option<Checkpoint>, end: nat, i: nat, k: Key, v: Value)
    requires Separate(sources, base) && i < |sources| && !k.Slot? && k.account in sources[i].cohort
    requires DeltaStart(sources[i]) <= end + 1
    requires sources[i].prefix.Some? && k in sources[i].prefix.value.fields ==> v == sources[i].prefix.value.fields[k]
    requires base.Some? && k in base.value.fields ==> v == base.value.fields[k]
    ensures var s, obs := sources[i], ObservedFields(sources, base, end);
            Fold(v, s.blocks, DeltaStart(s), Delta(s, end), k) == if k in obs then obs[k] else v
  {
    OverlayKey(sources, base, end, i, k);
    OwnField(sources[i], end, k, v);
  }
}
