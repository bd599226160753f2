/** Private replay prefixes: compacting a source never changes what it aggregates to. */
module Compaction {
  import opened Words
  import opened Trace
  import opened Projection
  import opened Aggregation
  import Replay

  /** What compacting the source through `end` stores. */
  ghost function Compact(s: Source, end: nat): (p: Prefix)
    ensures p.number == end
  {
    Prefix(end, AggregateStorage([s], None, end), ObservedFields([s], None, end))
  }

  /** The stored prefix is used only for a range that starts where it starts. */
  function SelectPrefix(s: Source, prefixStart: nat, stored: Option<Prefix>): Result<Source> {
    if stored.None? || s.start > stored.value.number then Ok(s.(prefix := None))
    else if s.start != prefixStart then Err("requested range begins inside a compacted bootstrap prefix")
    else Ok(s.(prefix := stored))
  }

  lemma {:induction false} FoldSplit(v: Value, blocks: map<nat, BlockState>, from: nat, a: nat, b: nat, k: Key)
    ensures Fold(v, blocks, from, a + b, k) == Fold(Fold(v, blocks, from, a, k), blocks, from + a, b, k)
  {
    if b > 0 { FoldSplit(v, blocks, from, a, b - 1, k); }
  }

  lemma {:induction false} FoldAgree(v: Value, x: map<nat, BlockState>, y: map<nat, BlockState>, from: nat, n: nat,
                                     k: Key)
    requires forall b :: from <= b < from + n ==> (b in x <==> b in y) && (b in x ==> x[b] == y[b])
    ensures Fold(v, x, from, n, k) == Fold(v, y, from, n, k)
  {
    if n > 0 { FoldAgree(v, x, y, from, n - 1, k); }
  }

  /** The patch writes k or resets its account. */
  ghost predicate Touches(p: BlockState, k: Key) {
    (exists r :: r in p.rows && r.key == k) || (k.Slot? && Resets(p, k.account))
  }

  ghost predicate TouchedAt(blocks: map<nat, BlockState>, from: nat, n: nat, k: Key, b: nat) {
    from <= b < from + n && b in blocks && Touches(blocks[b], k)
  }

  ghost predicate Touched(blocks: map<nat, BlockState>, from: nat, n: nat, k: Key) {
    exists b :: TouchedAt(blocks, from, n, k, b)
  }

  lemma PatchTouches(v: Value, w: Value, p: BlockState, k: Key)
    ensures if Touches(p, k) then Patched(v, p, k) == Patched(w, p, k) else Patched(v, p, k) == v
  {
  }

  /** Blocks that touch k decide it; blocks that do not leave it alone. */
  lemma {:induction false} FoldTouched(v: Value, w: Value, blocks: map<nat, BlockState>, from: nat, n: nat, k: Key)
    ensures if Touched(blocks, from, n, k) then Fold(v, blocks, from, n, k) == Fold(w, blocks, from, n, k)
            else Fold(v, blocks, from, n, k) == v
  {
    if n > 0 {
      FoldTouched(v, w, blocks, from, n - 1, k);
      TouchedLast(blocks, from, n, k);
      if from + n - 1 in blocks {
        PatchTouches(Fold(v, blocks, from, n - 1, k), Fold(w, blocks, from, n - 1, k), blocks[from + n - 1], k);
      }
    }
  }

  lemma TouchedLast(blocks: map<nat, BlockState>, from: nat, n: nat, k: Key)
    requires n > 0
    ensures Touched(blocks, from, n, k) <==>
            Touched(blocks, from, n - 1, k) || (from + n - 1 in blocks && Touches(blocks[from + n - 1], k))
  {
    var m, last := n - 1, from + n - 1;
    if b :| TouchedAt(blocks, from, m, k, b) { assert TouchedAt(blocks, from, n, k, b); }
    if last in blocks && Touches(blocks[last], k) { assert TouchedAt(blocks, from, n, k, last); }
    if b: nat :| TouchedAt(blocks, from, n, k, b) && b < last { assert TouchedAt(blocks, from, m, k, b); }
  }

  lemma TouchedSplit(blocks: map<nat, BlockState>, from: nat, a: nat, b: nat, k: Key)
    ensures Touched(blocks, from, a + b, k) <==> Touched(blocks, from, a, k) || Touched(blocks, from + a, b, k)
  {
    var n, middle := a + b, from + a;
    if x :| TouchedAt(blocks, from, a, k, x) { assert TouchedAt(blocks, from, n, k, x); }
    if x :| TouchedAt(blocks, middle, b, k, x) { assert TouchedAt(blocks, from, n, k, x); }
    if x :| TouchedAt(blocks, from, n, k, x) {
      assert TouchedAt(blocks, from, a, k, x) || TouchedAt(blocks, middle, b, k, x);
    }
  }

  lemma TouchedAgree(x: map<nat, BlockState>, y: map<nat, BlockState>, from: nat, n: nat, k: Key)
    requires forall b :: from <= b < from + n ==> (b in x <==> b in y) && (b in x ==> x[b] == y[b])
    ensures Touched(x, from, n, k) <==> Touched(y, from, n, k)
  {
    if b :| TouchedAt(x, from, n, k, b) { assert TouchedAt(y, from, n, k, b); }
    if b :| TouchedAt(y, from, n, k, b) { assert TouchedAt(x, from, n, k, b); }
  }

  ghost predicate SameRange(x: map<nat, BlockState>, y: map<nat, BlockState>, from: nat, end: nat) {
    forall b :: from <= b <= end ==> (b in x <==> b in y) && (b in x ==> x[b] == y[b])
  }

  /** A source whose prefix stands for the raw history up to its number, and which still
      holds the later blocks through `end`. */
  ghost predicate StandsFor(s: Source, raw: Source, end: nat) {
    && ValidSource(raw) && raw.prefix.None? && ValidSource(s)
    && s.cohort == raw.cohort && s.start == raw.start
    && DeltaStart(s) <= end + 1 && raw.start <= end + 1
    && (s.prefix.Some? ==> s.prefix.value == Compact(raw, s.prefix.value.number))
    && SameRange(s.blocks, raw.blocks, DeltaStart(s), end)
  }

  lemma SingleCoherent(s: Source)
    requires ValidSource(s)
    ensures Coherent([s], None)
  {
  }

  /** The history a prefix stands for, followed by the later blocks, is the whole history. */
  lemma StoredFold(s: Source, raw: Source, end: nat, k: Key, v: Value)
    requires StandsFor(s, raw, end)
    requires s.prefix.Some? ==> v == Fold(Default(k), raw.blocks, raw.start, DeltaStart(s) - raw.start, k)
    requires s.prefix.None? ==> v == Default(k)
    ensures Fold(v, s.blocks, DeltaStart(s), Delta(s, end), k)
            == Fold(Default(k), raw.blocks, raw.start, Delta(raw, end), k)
  {
    FoldAgree(v, s.blocks, raw.blocks, DeltaStart(s), Delta(s, end), k);
    FoldSplit(Default(k), raw.blocks, raw.start, DeltaStart(s) - raw.start, Delta(s, end), k);
  }

  lemma PrefixSlot(s: Source, raw: Source, end: nat, k: Key)
    requires StandsFor(s, raw, end) && k.Slot? && k.account in s.cohort && s.prefix.Some?
    ensures Replay.Read(s.prefix.value.storage, k)
            == Fold(Default(k), raw.blocks, raw.start, DeltaStart(s) - raw.start, k)
  {
    SingleCoherent(raw);
    AggregationIsSequential([raw], None, s.prefix.value.number, 0, k);
  }

  /** One slot: compacted and raw history aggregate to the same value. */
  lemma SlotTransparent(s: Source, raw: Source, end: nat, k: Key)
    requires StandsFor(s, raw, end) && k.Slot? && k.account in s.cohort
    ensures Fold(Replay.Read(StartingSlots(s, None), k), s.blocks, DeltaStart(s), Delta(s, end), k)
            == Fold(Default(k), raw.blocks, raw.start, Delta(raw, end), k)
  {
    if s.prefix.Some? { PrefixSlot(s, raw, end, k); }
    StoredFold(s, raw, end, k, Replay.Read(StartingSlots(s, None), k));
  }

  function Lookup(m: map<Key, Value>, k: Key): Option<Value> {
    if k in m then Some(m[k]) else None
  }

  lemma SameLookups(a: map<Key, Value>, b: map<Key, Value>)
    requires forall k :: Lookup(a, k) == Lookup(b, k)
    ensures a == b
  {
    forall k ensures k in a <==> k in b
             ensures k in a && k in b ==> a[k] == b[k]
    {
      assert Lookup(a, k) == Lookup(b, k);
    }
  }

  lemma StorageTransparent(s: Source, raw: Source, end: nat)
    requires StandsFor(s, raw, end)
    ensures AggregateStorage([s], None, end) == AggregateStorage([raw], None, end)
  {
    var a, b := AggregateStorage([s], None, end), AggregateStorage([raw], None, end);
    forall k ensures Lookup(a, k) == Lookup(b, k) { SameSlot(s, raw, end, k); }
    SameLookups(a, b);
  }

  lemma AloneWithin(s: Source, end: nat, k: Key)
    requires ValidSource(s)
    ensures k in AggregateStorage([s], None, end) ==> k.Slot? && k.account in s.cohort
  {
    SingleCoherent(s);
    if k in AggregateStorage([s], None, end) { AggregateWithin([s], None, end, k); }
  }

  lemma SameSlot(s: Source, raw: Source, end: nat, k: Key)
    requires StandsFor(s, raw, end)
    ensures Lookup(AggregateStorage([s], None, end), k) == Lookup(AggregateStorage([raw], None, end), k)
  {
    if k.Slot? && k.account in s.cohort {
      SameCohortSlot(s, raw, end, k);
    } else {
      AloneWithin(s, end, k);
      AloneWithin(raw, end, k);
    }
  }

  lemma SameCohortSlot(s: Source, raw: Source, end: nat, k: Key)
    requires StandsFor(s, raw, end) && k.Slot? && k.account in s.cohort
    ensures Lookup(AggregateStorage([s], None, end), k) == Lookup(AggregateStorage([raw], None, end), k)
  {
    SingleCoherent(s);
    SingleCoherent(raw);
    AggregationIsSequential([s], None, end, 0, k);
    AggregationIsSequential([raw], None, end, 0, k);
    SlotTransparent(s, raw, end, k);
  }

  /** Some block of the range writes k. */
  lemma FieldTouched(s: Source, end: nat, k: Key)
    requires DeltaStart(s) <= end + 1 && !k.Slot?
    ensures k in DeltaFields(s, end) <==> Touched(s.blocks, DeltaStart(s), Delta(s, end), k)
  {
    var versions := DeltaVersions(s, end, false);
    if k in Keys(versions) {
      var v :| v in versions && v.key == k;
      assert TouchedAt(s.blocks, DeltaStart(s), Delta(s, end), k, v.position.block);
    }
    if n :| TouchedAt(s.blocks, DeltaStart(s), Delta(s, end), k, n) {
      var r :| r in s.blocks[n].rows && r.key == k;
      assert VersionOf(r, n) in versions;
    }
  }

  lemma CompactedField(raw: Source, number: nat, k: Key)
    requires raw.prefix.None? && raw.start <= number + 1 && !k.Slot?
    ensures k in Compact(raw, number).fields <==> Touched(raw.blocks, raw.start, number + 1 - raw.start, k)
  {
    hide Touched, DeltaFields;
    FieldTouched(raw, number, k);
    OwnsAlone(raw, number);
  }

  /** A source's field is observed exactly when its prefix holds it or a later block writes it. */
  lemma OwnPresence(s: Source, end: nat, k: Key)
    requires DeltaStart(s) <= end + 1 && !k.Slot?
    ensures k in OwnFields(s, end) <==>
            (s.prefix.Some? && k in s.prefix.value.fields) || Touched(s.blocks, DeltaStart(s), Delta(s, end), k)
  {
    FieldTouched(s, end, k);
  }

  lemma FieldPresence(s: Source, raw: Source, end: nat, k: Key)
    requires StandsFor(s, raw, end) && !k.Slot?
    ensures k in OwnFields(s, end) <==> k in OwnFields(raw, end)
  {
    hide OwnFields, DeltaFields, Touched, AggregateStorage, ObservedFields;
    if s.prefix.Some? { CompactedField(raw, s.prefix.value.number, k); }
    PresenceFrom(s, raw, end, k);
  }

  lemma PresenceFrom(s: Source, raw: Source, end: nat, k: Key)
    requires raw.prefix.None? && s.start == raw.start <= DeltaStart(s) <= end + 1 && !k.Slot?
    requires SameRange(s.blocks, raw.blocks, DeltaStart(s), end)
    requires s.prefix.Some? ==>
             (k in s.prefix.value.fields <==> Touched(raw.blocks, raw.start, DeltaStart(s) - raw.start, k))
    ensures k in OwnFields(s, end) <==> k in OwnFields(raw, end)
  {
    hide OwnFields;
    OwnPresence(s, end, k);
    OwnPresence(raw, end, k);
    TouchedAgree(s.blocks, raw.blocks, DeltaStart(s), Delta(s, end), k);
    TouchedSplit(raw.blocks, raw.start, DeltaStart(s) - raw.start, Delta(s, end), k);
  }

  lemma OwnsAlone(s: Source, end: nat)
    ensures ObservedFields([s], None, end) == OwnFields(s, end)
  {
    assert [s][..0] == [];
    assert ObservedFields([], None, end) == map[];
  }

  lemma FieldValue(s: Source, raw: Source, end: nat, k: Key)
    requires StandsFor(s, raw, end) && !k.Slot? && k in OwnFields(s, end) && k in OwnFields(raw, end)
    ensures OwnFields(s, end)[k] == OwnFields(raw, end)[k]
  {
    OwnField(raw, end, k, Default(k));
    var v := PrefixField(s, raw, end, k);
    OwnField(s, end, k, v);
    StoredFold(s, raw, end, k, v);
  }

  /** What the field held at the end of the prefix. */
  lemma PrefixField(s: Source, raw: Source, end: nat, k: Key) returns (v: Value)
    requires StandsFor(s, raw, end) && !k.Slot?
    ensures s.prefix.Some? ==> v == Fold(Default(k), raw.blocks, raw.start, DeltaStart(s) - raw.start, k)
    ensures s.prefix.Some? && k in s.prefix.value.fields ==> v == s.prefix.value.fields[k]
    ensures s.prefix.None? ==> v == Default(k)
  {
    v := Default(k);
    if s.prefix.Some? {
      OwnsAlone(raw, s.prefix.value.number);
      OwnField(raw, s.prefix.value.number, k, v);
      v := if k in s.prefix.value.fields then s.prefix.value.fields[k] else Default(k);
    }
  }

  /** One field: compacted and raw history observe the same. */
  lemma SameField(s: Source, raw: Source, end: nat, k: Key)
    requires StandsFor(s, raw, end)
    ensures Lookup(OwnFields(s, end), k) == Lookup(OwnFields(raw, end), k)
  {
    if k.Slot? {
      FieldsOnly(s, end, k);
      FieldsOnly(raw, end, k);
    } else {
      FieldPresence(s, raw, end, k);
      if k in OwnFields(s, end) { FieldValue(s, raw, end, k); }
    }
  }

  lemma FieldsOnly(s: Source, end: nat, k: Key)
    requires ValidSource(s) && k.Slot?
    ensures k !in OwnFields(s, end)
  {
    if k in OwnFields(s, end) { OwnFieldsWithin(s, end, k); }
  }

  lemma FieldsTransparent(s: Source, raw: Source, end: nat)
    requires StandsFor(s, raw, end)
    ensures OwnFields(s, end) == OwnFields(raw, end)
  {
    forall k ensures Lookup(OwnFields(s, end), k) == Lookup(OwnFields(raw, end), k) { SameField(s, raw, end, k); }
    SameLookups(OwnFields(s, end), OwnFields(raw, end));
  }

  /** Compaction is transparent: aggregating a prefix and the later blocks stores what
      aggregating the whole raw interval stores, slots and fields alike. */
  lemma CompactionTransparent(s: Source, raw: Source, end: nat)
    requires StandsFor(s, raw, end)
    ensures Compact(s, end) == Compact(raw, end)
  {
    StorageTransparent(s, raw, end);
    OwnsAlone(s, end);
    OwnsAlone(raw, end);
    FieldsTransparent(s, raw, end);
  }

  /** A compacted prefix is well formed. */
  lemma CompactValid(s: Source, end: nat)
    requires ValidSource(s)
    ensures SlotsOf(Compact(s, end).storage, s.cohort) && FieldsOf(Compact(s, end).fields, s.cohort)
  {
    SingleCoherent(s);
    forall k | k in Compact(s, end).storage
      ensures k.Slot? && k.account in s.cohort && Compact(s, end).storage[k] != Default(k)
    {
      AggregateWithin([s], None, end, k);
    }
    OwnsAlone(s, end);
    forall k | k in Compact(s, end).fields ensures !k.Slot? && k.account in s.cohort { OwnFieldsWithin(s, end, k); }
  }

  /** Selecting the stored prefix for a requested range: a range from the prefix's own start gets
      it and still stands for the raw history; one that begins inside the prefix is refused; one
      that begins after it is read raw. */
  lemma SelectedPrefixStands(s: Source, raw: Source, stored: Option<Prefix>, end: nat)
    requires ValidSource(raw) && raw.prefix.None? && ValidSource(s) && s.cohort == raw.cohort && s.start <= end
    requires stored.Some? ==>
             raw.start <= stored.value.number <= end && stored.value == Compact(raw, stored.value.number)
    requires SameRange(s.blocks, raw.blocks,
                       if stored.Some? && s.start <= stored.value.number then stored.value.number + 1 else s.start, end)
    ensures var r := SelectPrefix(s, raw.start, stored);
            && (r.Err? <==> stored.Some? && s.start <= stored.value.number && s.start != raw.start)
            && (r.Ok? ==> StandsFor(r.value, raw.(start := s.start), end))
  {
    if stored.Some? { CompactValid(raw, stored.value.number); }
  }

  // ---------------------------------------------------------------- what a source must still store

  /** The block table holds nothing but blocks of the source's chain. */
  ghost predicate RowsHonest(raw: Source, rows: map<nat, BlockState>) {
    forall n :: n in rows ==> raw.start <= n && n in raw.blocks && rows[n] == raw.blocks[n]
  }

  /** Compaction keeps everything from here on. */
  function KeptFrom(raw: Source, prefix: Option<Prefix>): nat {
    if prefix.Some? then prefix.value.number else raw.start
  }

  /** With its prefix, the table reaches from the start of the source to the tip. */
  ghost predicate Reaches(raw: Source, rows: map<nat, BlockState>, prefix: Option<Prefix>, tip: nat) {
    && raw.start <= tip && (forall n :: KeptFrom(raw, prefix) <= n <= tip ==> n in rows)
    && (prefix.Some? ==> raw.start <= prefix.value.number <= tip && prefix.value == Compact(raw, prefix.value.number))
  }

  /** Such a table stands for the raw history and compacts to the same prefix. */
  lemma ReachingStands(raw: Source, rows: map<nat, BlockState>, prefix: Option<Prefix>, tip: nat)
    requires ValidSource(raw) && raw.prefix.None? && RowsHonest(raw, rows) && Reaches(raw, rows, prefix, tip)
    ensures var s := Source(raw.cohort, raw.start, rows, prefix);
            StandsFor(s, raw, tip) && Compact(s, tip) == Compact(raw, tip)
  {
    if prefix.Some? { CompactValid(raw, prefix.value.number); }
    CompactionTransparent(Source(raw.cohort, raw.start, rows, prefix), raw, tip);
  }

  /** Compacting at each cut in turn, each time from the previous prefix. */
  ghost function CompactAlong(raw: Source, cuts: seq<nat>): Source {
    if cuts == [] then raw
    else
      var s := CompactAlong(raw, cuts[..|cuts| - 1]);
      s.(prefix := Some(Compact(s, cuts[|cuts| - 1])))
  }

  ghost predicate Ascending(start: nat, cuts: seq<nat>) {
    && (forall i :: 0 <= i < |cuts| ==> start <= cuts[i])
    && forall i, j :: 0 <= i < j < |cuts| ==> cuts[i] <= cuts[j]
  }

  /** Any sequence of compactions stands for the raw history. */
  lemma {:induction false} CompactionsStandFor(raw: Source, cuts: seq<nat>, end: nat)
    requires ValidSource(raw) && raw.prefix.None? && Ascending(raw.start, cuts)
    requires raw.start <= end + 1 && (cuts != [] ==> cuts[|cuts| - 1] <= end)
    ensures StandsFor(CompactAlong(raw, cuts), raw, end)
    decreases |cuts|
  {
    if cuts != [] {
      var front, last := cuts[..|cuts| - 1], cuts[|cuts| - 1];
      var s := CompactAlong(raw, front);
      CompactionsStandFor(raw, front, last);
      CompactionTransparent(s, raw, last);
      CompactValid(s, last);
      assert CompactAlong(raw, cuts).blocks == raw.blocks by { SameBlocks(raw, cuts); }
    }
  }

  lemma {:induction false} SameBlocks(raw: Source, cuts: seq<nat>)
    ensures CompactAlong(raw, cuts).blocks == raw.blocks
    ensures CompactAlong(raw, cuts).cohort == raw.cohort && CompactAlong(raw, cuts).start == raw.start
  {
    if cuts != [] { SameBlocks(raw, cuts[..|cuts| - 1]); }
  }

  /** A slot published from stored sources is what the raw blocks leave of the base. */
  lemma StoredSlot(stored: seq<Source>, raw: Source, base: Option<Checkpoint>, end: nat, i: nat, k: Key)
    requires Coherent(stored, base) && i < |stored| && StandsFor(stored[i], raw, end)
    requires k.Slot? && k.account in raw.cohort
    ensures var v := Fold(Replay.Read(StartingSlots(raw, base), k), raw.blocks, raw.start, Delta(raw, end), k);
            Replay.Read(AggregateStorage(stored, base, end), k) == v
              && (k in AggregateStorage(stored, base, end) <==> v != Default(k))
  {
    AggregationIsSequential(stored, base, end, i, k);
    StartTransparent(stored[i], raw, base, end, k);
  }

  /** Publication over several sources and a base: replacing raw sources by compacted ones
      changes no slot of any cohort ... */
  lemma PublishedSlotsTransparent(stored: seq<Source>, raws: seq<Source>, base: Option<Checkpoint>, end: nat, i: nat,
                                  k: Key)
    requires Coherent(stored, base) && Coherent(raws, base) && |stored| == |raws|
    requires i < |raws| && k.Slot? && k.account in raws[i].cohort && StandsFor(stored[i], raws[i], end)
    ensures Replay.Read(AggregateStorage(stored, base, end), k) == Replay.Read(AggregateStorage(raws, base, end), k)
  {
    StoredSlot(stored, raws[i], base, end, i, k);
    AggregationIsSequential(raws, base, end, i, k);
  }

  lemma StartTransparent(s: Source, raw: Source, base: Option<Checkpoint>, end: nat, k: Key)
    requires StandsFor(s, raw, end) && ValidBase(base) && Continues(s, base) && k.Slot? && k.account in s.cohort
    ensures Fold(Replay.Read(StartingSlots(s, base), k), s.blocks, DeltaStart(s), Delta(s, end), k)
            == Fold(Replay.Read(StartingSlots(raw, base), k), raw.blocks, raw.start, Delta(raw, end), k)
  {
    if s.prefix.Some? {
      if base.Some? {
        var shared := s.cohort * base.value.accounts;
        assert k.account in base.value.accounts ==> k.account in shared;
      }
      SlotTransparent(s, raw, end, k);
    } else {
      FoldAgree(Replay.Read(StartingSlots(s, base), k), s.blocks, raw.blocks, s.start, Delta(s, end), k);
    }
  }

  /** ... and no observed field, not even where a prefix meets a base of the same accounts. */
  lemma PublishedFieldsTransparent(stored: seq<Source>, raws: seq<Source>, base: Option<Checkpoint>, end: nat, i: nat,
                                   k: Key)
    requires Separate(stored, base) && Separate(raws, base) && |stored| == |raws|
    requires i < |raws| && k.account in raws[i].cohort && StandsFor(stored[i], raws[i], end)
    ensures Lookup(ObservedFields(stored, base, end), k) == Lookup(ObservedFields(raws, base, end), k)
  {
    OverlayKey(stored, base, end, i, k);
    OverlayKey(raws, base, end, i, k);
    FieldsTransparent(stored[i], raws[i], end);
  }

  // ---------------------------------------------------------------- prefix over a base

  /** What a slot starts from where prefix and base may both hold it: the prefix is later. */
  function MergedStart(s: Source, base: Checkpoint, k: Key): Option<Version>
    requires s.prefix.Some?
  {
    var p := s.prefix.value;
    if k in p.storage then Some(Version(k, p.storage[k], Position(p.number, 0)))
    else if k in base.storage then Some(Version(k, base.storage[k], Position(base.number, 0)))
    else None
  }

  /** A source with a prefix over a base that ends just before the source starts. */
  ghost predicate MeetsBase(sources: seq<Source>, base: Checkpoint, i: nat, end: nat) {
    && Separate(sources, Some(base)) && i < |sources| && sources[i].prefix.Some?
    && sources[i].start == base.number + 1 && DeltaStart(sources[i]) <= end + 1
  }

  lemma MergedVersions(sources: seq<Source>, base: Checkpoint, end: nat, i: nat, k: Key, v: Version)
    requires MeetsBase(sources, base, i, end) && k.Slot? && k.account in sources[i].cohort && v.key == k
    ensures var s := sources[i];
            v in UnionStorage(sources, Some(base), end) <==>
            v in KeyVersions(MergedStart(s, base, k), s.blocks, DeltaStart(s), Delta(s, end), k)
              || v in At(base.storage, base.number)
  {
    UnionOfKey(sources, Some(base), end, i, k, v);
  }

  lemma MergedResets(sources: seq<Source>, base: Checkpoint, end: nat, i: nat, k: Key, v: Version)
    requires MeetsBase(sources, base, i, end) && k.Slot? && k.account in sources[i].cohort && v.key == k
    ensures var s := sources[i];
            v in Visible(UnionStorage(sources, Some(base), end), UnionResets(sources, end)) <==>
            v in UnionStorage(sources, Some(base), end)
            && forall p :: p in KeyResets(s.blocks, DeltaStart(s), Delta(s, end), k) ==> Before(p, v.position)
  {
    var s, resets := sources[i], UnionResets(sources, end);
    forall p ensures Reset(k.account, p) in resets <==> p in KeyResets(s.blocks, DeltaStart(s), Delta(s, end), k) {
      ResetsOfKey(sources, Some(base), end, i, k, p);
    }
    assert forall x :: x in resets && x.account == k.account ==> x == Reset(k.account, x.position);
  }

  /** A base version next to a prefix version of the key changes no winner. */
  lemma MergedAgrees(own: set<Version>, survivors: set<Version>, start: Option<Version>, under: Version, k: Key,
                     v: Value)
    requires Agrees(survivors, v, Default(k)) && survivors <= own <= survivors + {under}
    requires under in own && under !in survivors ==>
             start.Some? && start.value in survivors && Before(under.position, start.value.position)
    requires forall u :: u in own ==> u.key == k
    ensures Agrees(own, v, Default(k))
  {
    forall u | Winner(own, u) ensures u.value == v {
      if u in survivors { assert Winner(survivors, u); }
    }
  }

  /** What is visible of the key is what survives from the merged start, and possibly a base
      version below it. */
  lemma MergedMember(sources: seq<Source>, base: Checkpoint, end: nat, i: nat, k: Key, u: Version)
    requires MeetsBase(sources, base, i, end) && k.Slot? && k.account in sources[i].cohort && u.key == k
    ensures var s, start := sources[i], MergedStart(sources[i], base, k);
            var survivors := Survivors(start, s.blocks, DeltaStart(s), Delta(s, end), k);
            var visible := Visible(UnionStorage(sources, Some(base), end), UnionResets(sources, end));
            && (u in survivors ==> u in visible)
            && (u in visible && u !in survivors ==>
                  u == Version(k, Replay.Read(base.storage, k), Position(base.number, 0))
                  && start.Some? && start.value in survivors && Before(u.position, start.value.position))
  {
    var s, start := sources[i], MergedStart(sources[i], base, k);
    MergedVersions(sources, base, end, i, k, u);
    MergedResets(sources, base, end, i, k, u);
    if start.Some? { assert start.value in KeyVersions(start, s.blocks, DeltaStart(s), Delta(s, end), k); }
  }

  lemma MergedSurvivors(sources: seq<Source>, base: Checkpoint, end: nat, i: nat, k: Key, own: set<Version>, v: Value)
    requires MeetsBase(sources, base, i, end) && k.Slot? && k.account in sources[i].cohort
    requires own == set u | u in Visible(UnionStorage(sources, Some(base), end), UnionResets(sources, end))
             && u.key == k
    requires var s := sources[i];
             Agrees(Survivors(MergedStart(s, base, k), s.blocks, DeltaStart(s), Delta(s, end), k), v, Default(k))
    ensures Agrees(own, v, Default(k))
  {
    var s, start := sources[i], MergedStart(sources[i], base, k);
    var survivors := Survivors(start, s.blocks, DeltaStart(s), Delta(s, end), k);
    var under := Version(k, Replay.Read(base.storage, k), Position(base.number, 0));
    forall u: Version | u.key == k
      ensures u in survivors ==> u in own
      ensures u in own && u !in survivors ==>
              u == under && start.Some? && start.value in survivors && Before(u.position, start.value.position)
    {
      MergedMember(sources, base, end, i, k, u);
    }
    MergedAgrees(own, survivors, start, under, k, v);
  }

  /** The merge starts every slot from the prefix, or from the base where the prefix has none. */
  lemma MergedSlot(sources: seq<Source>, base: Checkpoint, end: nat, i: nat, k: Key)
    requires MeetsBase(sources, base, i, end) && k.Slot? && k.account in sources[i].cohort
    ensures var s, p := sources[i], sources[i].prefix.value;
            var v := if k in p.storage then p.storage[k] else Replay.Read(base.storage, k);
            Replay.Read(AggregateStorage(sources, Some(base), end), k)
              == Fold(v, s.blocks, DeltaStart(s), Delta(s, end), k)
  {
    var s, p := sources[i], sources[i].prefix.value;
    var v := if k in p.storage then p.storage[k] else Replay.Read(base.storage, k);
    var visible := Visible(UnionStorage(sources, Some(base), end), UnionResets(sources, end));
    var own := set u | u in visible && u.key == k;
    WinnerIsFold(MergedStart(s, base, k), s.blocks, DeltaStart(s), Delta(s, end), k, v);
    MergedSurvivors(sources, base, end, i, k, own, Fold(v, s.blocks, DeltaStart(s), Delta(s, end), k));
    ArgMaxOfKey(visible, own, k, Fold(v, s.blocks, DeltaStart(s), Delta(s, end), k), Default(k));
  }

  /** Where a prefix meets a base that holds the slot, the prefix does not hold it although its
      interval touched it, and no later block does. The prefix then stores neither the zero nor
      the reset that would hide the base's version. */
  ghost predicate Resurrects(s: Source, raw: Source, base: Checkpoint, end: nat, k: Key)
    requires s.prefix.Some? && raw.start <= DeltaStart(s) <= end + 1
  {
    && k in base.storage && k !in s.prefix.value.storage
    && Touched(raw.blocks, raw.start, DeltaStart(s) - raw.start, k)
    && !Touched(s.blocks, DeltaStart(s), Delta(s, end), k)
  }

  /** A prefix compacted without its base, then merged over that base, is exact for a slot at
      a target block exactly when it does not resurrect the slot there. */
  lemma PrefixOverBaseExactness(sources: seq<Source>, raw: Source, base: Checkpoint, end: nat, i: nat, k: Key)
    requires MeetsBase(sources, base, i, end) && StandsFor(sources[i], raw, end) && k.Slot? && k.account in raw.cohort
    ensures Replay.Read(AggregateStorage(sources, Some(base), end), k)
            == Fold(Replay.Read(base.storage, k), raw.blocks, raw.start, Delta(raw, end), k)
            <==> !Resurrects(sources[i], raw, base, end, k)
  {
    MergedSlot(sources, base, end, i, k);
    MergeIsExact(sources[i], raw, base, end, k);
  }

  lemma MergeIsExact(s: Source, raw: Source, base: Checkpoint, end: nat, k: Key)
    requires StandsFor(s, raw, end) && s.prefix.Some? && ValidBase(Some(base)) && k.Slot? && k.account in raw.cohort
    ensures var p, held := s.prefix.value, Replay.Read(base.storage, k);
            Fold(if k in p.storage then p.storage[k] else held, s.blocks, DeltaStart(s), Delta(s, end), k)
            == Fold(held, raw.blocks, raw.start, Delta(raw, end), k)
            <==> !Resurrects(s, raw, base, end, k)
  {
    hide Fold, Touched, Compact;
    var p, held, n := s.prefix.value, Replay.Read(base.storage, k), DeltaStart(s) - raw.start;
    MergedFolds(s, raw, end, k, held, if k in p.storage then p.storage[k] else held);
    PrefixSlot(s, raw, end, k);
    FoldTouched(Default(k), held, raw.blocks, raw.start, n, k);
    FoldTouched(held, Default(k), raw.blocks, raw.start, n, k);
    StartIsExact(p.storage, base.storage, k, Touched(raw.blocks, raw.start, n, k),
                 Fold(held, raw.blocks, raw.start, n, k), Fold(Default(k), raw.blocks, raw.start, n, k));
  }

  /** The merged start is what the raw interval leaves exactly when the interval did not clear a
      slot of the base. */
  lemma StartIsExact(prefix: map<Key, Value>, base: map<Key, Value>, k: Key, touched: bool, exact: Value, alone: Value)
    requires (k in prefix ==> prefix[k] != Default(k)) && (k in base ==> base[k] != Default(k))
    requires Replay.Read(prefix, k) == alone
    requires if touched then exact == alone else exact == Replay.Read(base, k) && alone == Default(k)
    ensures (if k in prefix then prefix[k] else Replay.Read(base, k)) == exact
            <==> !(k in base && k !in prefix && touched)
  {
  }

  /** Starting the later blocks from m instead of what the raw interval leaves shows exactly
      when they do not touch k. */
  lemma MergedFolds(s: Source, raw: Source, end: nat, k: Key, held: Value, m: Value)
    requires StandsFor(s, raw, end) && s.prefix.Some?
    ensures Fold(m, s.blocks, DeltaStart(s), Delta(s, end), k) == Fold(held, raw.blocks, raw.start, Delta(raw, end), k)
            <==>
            Touched(s.blocks, DeltaStart(s), Delta(s, end), k)
            || m == Fold(held, raw.blocks, raw.start, DeltaStart(s) - raw.start, k)
  {
    var exact := Fold(held, raw.blocks, raw.start, DeltaStart(s) - raw.start, k);
    FoldSplit(held, raw.blocks, raw.start, DeltaStart(s) - raw.start, Delta(s, end), k);
    FoldAgree(exact, s.blocks, raw.blocks, DeltaStart(s), Delta(s, end), k);
    FoldTouched(m, exact, s.blocks, DeltaStart(s), Delta(s, end), k);
    FoldTouched(exact, m, s.blocks, DeltaStart(s), Delta(s, end), k);
  }

  /** The merge is always exact for fields. */
  lemma {:induction false} PrefixOverBaseFields(sources: seq<Source>, raw: Source, base: Checkpoint, end: nat, i: nat,
                                                k: Key, v: Value)
    requires MeetsBase(sources, base, i, end) && StandsFor(sources[i], raw, end) && !k.Slot? && k.account in raw.cohort
    requires k in base.fields ==> v == base.fields[k]
    ensures var observed := ObservedFields(sources, Some(base), end);
            Fold(v, raw.blocks, raw.start, Delta(raw, end), k) == if k in observed then observed[k] else v
  {
    OverlayKey(sources, Some(base), end, i, k);
    SameField(sources[i], raw, end, k);
    OwnField(raw, end, k, v);
  }

  /** A block that only clears slot 7 of the account. */
  ghost function ClearingBlock(a: Address): BlockState {
    BlockState(10, [], [], 0, [], 5, {a}, 1, {Row(Slot(a, 7), Num(0), 1)}, {})
  }

  ghost function ClearingSource(a: Address): Source {
    Source({a}, 10, map[10 := ClearingBlock(a)], None)
  }

  lemma ClearedValue(a: Address, v: Value)
    ensures Fold(v, ClearingSource(a).blocks, 10, 1, Slot(a, 7)) == Num(0)
  {
    var b, blocks := ClearingBlock(a), ClearingSource(a).blocks;
    assert Effective(b, Row(Slot(a, 7), Num(0), 1));
    assert Fold(v, blocks, 10, 1, Slot(a, 7)) == Patched(Fold(v, blocks, 10, 0, Slot(a, 7)), b, Slot(a, 7));
  }

  lemma ClearingSourceValid(a: Address)
    ensures ValidSource(ClearingSource(a))
  {
    assert forall o: nat :: !ResetAt(ClearingBlock(a), a, o);
  }

  ghost function ClearedBase(a: Address): Checkpoint {
    Checkpoint(9, {a}, map[Slot(a, 7) := Num(5)], map[])
  }

  lemma RawBlockClears(a: Address)
    ensures Replay.Read(AggregateStorage([ClearingSource(a)], Some(ClearedBase(a)), 10), Slot(a, 7)) == Num(0)
  {
    ClearingSourceValid(a);
    ClearedValue(a, Num(5));
    assert ValidBase(Some(ClearedBase(a)));
    AggregationIsSequential([ClearingSource(a)], Some(ClearedBase(a)), 10, 0, Slot(a, 7));
  }

  /** The base holds 5 in slot 7 and block 10 clears it; the prefix of block 10 merged over
      the base resurrects the 5. */
  lemma PrefixOverBaseResurrects(a: Address)
    ensures var s := ClearingSource(a).(prefix := Some(Compact(ClearingSource(a), 10)));
            Replay.Read(AggregateStorage([s], Some(ClearedBase(a)), 10), Slot(a, 7)) != Num(0)
  {
    hide AggregateStorage, Compact;
    var raw := ClearingSource(a);
    var s := raw.(prefix := Some(Compact(raw, 10)));
    ClearingSourceValid(a);
    CompactValid(raw, 10);
    ClearedValue(a, Num(5));
    assert ValidBase(Some(ClearedBase(a)));
    SingleCoherent(s);
    MergedSlot([s], ClearedBase(a), 10, 0, Slot(a, 7));
  }
}
