/** From execution traces to checkpoint rows. */
module EndToEnd {
  import opened Words
  import opened Trace
  import opened Replay
  import opened Projection
  import opened Aggregation
  import opened Compaction
  import Native

  ghost predicate Accepted(filter: set<Address>, run: seq<Block>) {
    run == [] || (Accepted(filter, run[..|run| - 1]) && Acceptable(filter, run[|run| - 1]))
  }

  /** The chain state after a run of blocks. */
  ghost function StateAfter(s: State, filter: set<Address>, run: seq<Block>): State
    requires Accepted(filter, run)
  {
    if run == [] then s else After(StateAfter(s, filter, run[..|run| - 1]), run[|run| - 1])
  }

  /** A contiguous run of accepted traces, each well formed in the state it starts from. */
  ghost predicate WellFormedRun(s: State, filter: set<Address>, start: nat, run: seq<Block>)
    requires Accepted(filter, run)
  {
    run == [] || (var front, last := run[..|run| - 1], run[|run| - 1];
                  && WellFormedRun(s, filter, start, front)
                  && last.number == start + |front|
                  && WellFormed(StateAfter(s, filter, front), filter, last))
  }

  /** The patches the mapper emits for a run. */
  ghost function Patches(filter: set<Address>, run: seq<Block>): (ps: seq<BlockState>)
    requires Accepted(filter, run)
    ensures |ps| == |run|
  {
    if run == [] then [] else Patches(filter, run[..|run| - 1]) + [Patch(filter, run[|run| - 1])]
  }

  /** The block table that holds them. */
  function Table(start: nat, patches: seq<BlockState>): map<nat, BlockState> {
    map n: nat | start <= n < start + |patches| :: PatchAt(start, patches, n)
  }

  function PatchAt(start: nat, patches: seq<BlockState>, n: nat): BlockState
    requires start <= n < start + |patches|
  {
    patches[n - start]
  }

  ghost predicate ValidPatches(patches: seq<BlockState>, filter: set<Address>) {
    forall i :: 0 <= i < |patches| ==>
      UniqueRows(patches[i]) && WithinFilter(patches[i]) && patches[i].accounts == filter
  }

  lemma {:induction false} PatchesValid(filter: set<Address>, run: seq<Block>)
    requires Accepted(filter, run)
    ensures ValidPatches(Patches(filter, run), filter)
  {
    hide Acceptable;
    if run != [] {
      PatchesValid(filter, run[..|run| - 1]);
      ProjectionUniqueRows(filter, run[|run| - 1]);
      ProjectionWithinFilter(filter, run[|run| - 1]);
    }
  }

  lemma TableValid(filter: set<Address>, start: nat, patches: seq<BlockState>)
    requires ValidPatches(patches, filter)
    ensures ValidBlocks(Table(start, patches), filter)
  {
  }

  lemma FoldAppend(v: Value, start: nat, front: seq<BlockState>, p: BlockState, k: Key)
    ensures Fold(v, Table(start, front + [p]), start, |front| + 1, k)
            == Patched(Fold(v, Table(start, front), start, |front|, k), p, k)
  {
    FoldAgree(v, Table(start, front + [p]), Table(start, front), start, |front|, k);
  }

  /** The last block of a run contributes one patch, and applying it is replaying the block. */
  lemma LastPatch(s: State, filter: set<Address>, start: nat, run: seq<Block>, k: Key) returns (p: BlockState)
    requires run != [] && Accepted(filter, run) && WellFormedRun(s, filter, start, run) && k.account in filter
    ensures var front := run[..|run| - 1];
            && Patches(filter, run) == Patches(filter, front) + [p]
            && Read(StateAfter(s, filter, run), k) == Patched(Read(StateAfter(s, filter, front), k), p, k)
  {
    p := Patch(filter, run[|run| - 1]);
    ProjectionRefinesReplay(filter, run[|run| - 1], StateAfter(s, filter, run[..|run| - 1]), k);
  }

  lemma FrontRun(s: State, filter: set<Address>, start: nat, run: seq<Block>)
    requires run != [] && Accepted(filter, run) && WellFormedRun(s, filter, start, run)
    ensures Accepted(filter, run[..|run| - 1]) && WellFormedRun(s, filter, start, run[..|run| - 1])
  {
  }

  /** Applying the projected patches one by one is replaying the traces. */
  lemma {:induction false} FoldIsReplay(s: State, filter: set<Address>, start: nat, run: seq<Block>, k: Key)
    requires Accepted(filter, run) && WellFormedRun(s, filter, start, run) && k.account in filter
    ensures Fold(Read(s, k), Table(start, Patches(filter, run)), start, |run|, k) == Read(StateAfter(s, filter, run), k)
  {
    hide Acceptable, WellFormed, After, Patch, Patched;
    if run != [] {
      var front := run[..|run| - 1];
      FrontRun(s, filter, start, run);
      FoldIsReplay(s, filter, start, front, k);
      var p := LastPatch(s, filter, start, run, k);
      FoldAppend(Read(s, k), start, Patches(filter, front), p, k);
    }
  }

  /** A cohort: its accounts, where its source starts, the chain state before that block
      and the execution traces from there. */
  datatype Cohort = Cohort(accounts: set<Address>, start: nat, before: State, run: seq<Block>)

  ghost predicate Traced(c: Cohort, end: nat) {
    c.start + |c.run| == end + 1 && Accepted(c.accounts, c.run) && WellFormedRun(c.before, c.accounts, c.start, c.run)
  }

  ghost function SourceOf(c: Cohort): Source
    requires Accepted(c.accounts, c.run)
  {
    Source(c.accounts, c.start, Table(c.start, Patches(c.accounts, c.run)), None)
  }

  lemma SourceValid(c: Cohort)
    requires Accepted(c.accounts, c.run)
    ensures ValidSource(SourceOf(c))
  {
    PatchesValid(c.accounts, c.run);
    TableValid(c.accounts, c.start, Patches(c.accounts, c.run));
  }

  ghost function Final(c: Cohort): State
    requires Accepted(c.accounts, c.run)
  {
    StateAfter(c.before, c.accounts, c.run)
  }

  /** Any sequence of compactions of the traced source qualifies as stored input. */
  lemma CompactedCohort(c: Cohort, cuts: seq<nat>, end: nat)
    requires Traced(c, end) && Ascending(c.start, cuts) && (cuts != [] ==> cuts[|cuts| - 1] <= end)
    ensures StandsFor(CompactAlong(SourceOf(c), cuts), SourceOf(c), end)
  {
    SourceValid(c);
    CompactionsStandFor(SourceOf(c), cuts, end);
  }

  /** The base, or for an account without base rows the empty account, is the chain state
      the cohort starts from. */
  ghost predicate StartsFrom(c: Cohort, base: Option<Checkpoint>) {
    && (forall k: Key :: k.Slot? && k.account in c.accounts ==>
          Read(c.before, k) == if base.Some? then Read(base.value.storage, k) else Default(k))
    && (base.Some? ==> forall k :: k in base.value.fields && k.account in c.accounts ==>
          Read(c.before, k) == base.value.fields[k])
  }

  lemma StartSlot(c: Cohort, base: Option<Checkpoint>, k: Key)
    requires StartsFrom(c, base) && Accepted(c.accounts, c.run) && k.Slot? && k.account in c.accounts
    ensures Read(StartingSlots(SourceOf(c), base), k) == Read(c.before, k)
  {
  }

  /** The checkpoint published from stored sources holds, for every selected account, exactly
      the nonzero slots of the replayed chain, whether or not the source was compacted ... */
  lemma CheckpointSlotsAreReplayed(c: Cohort, stored: seq<Source>, base: Option<Checkpoint>, end: nat, i: nat, k: Key)
    requires Traced(c, end) && StartsFrom(c, base) && Coherent(stored, base)
    requires i < |stored| && StandsFor(stored[i], SourceOf(c), end)
    requires k.Slot? && k.account in c.accounts
    ensures Read(AggregateStorage(stored, base, end), k) == Read(Final(c), k)
    ensures k in AggregateStorage(stored, base, end) <==> Read(Final(c), k) != Default(k)
  {
    StoredSlot(stored, SourceOf(c), base, end, i, k);
    StartSlot(c, base, k);
    ReplayedFold(c, end, k);
  }

  /** ... and the balances, nonces and codes it observed; an unobserved field never changed. */
  lemma CheckpointFieldsAreReplayed(c: Cohort, stored: seq<Source>, base: Option<Checkpoint>, end: nat, i: nat, k: Key)
    requires Traced(c, end) && StartsFrom(c, base) && Coherent(stored, base)
    requires i < |stored| && StandsFor(stored[i], SourceOf(c), end)
    requires !k.Slot? && k.account in c.accounts
    ensures Read(Final(c), k) ==
            var observed := ObservedFields(stored, base, end);
            if k in observed then observed[k] else Read(c.before, k)
  {
    ReplayedField(c, end, k);
    OverlayKey(stored, base, end, i, k);
    SameField(stored[i], SourceOf(c), end, k);
  }

  lemma ReplayedField(c: Cohort, end: nat, k: Key)
    requires Traced(c, end) && !k.Slot? && k.account in c.accounts
    ensures Read(Final(c), k) ==
            var own := OwnFields(SourceOf(c), end);
            if k in own then own[k] else Read(c.before, k)
  {
    SourceValid(c);
    OwnField(SourceOf(c), end, k, Read(c.before, k));
    ReplayedFold(c, end, k);
  }

  lemma ReplayedFold(c: Cohort, end: nat, k: Key)
    requires Traced(c, end) && k.account in c.accounts
    ensures Delta(SourceOf(c), end) == |c.run|
    ensures Fold(Read(c.before, k), SourceOf(c).blocks, c.start, |c.run|, k) == Read(Final(c), k)
  {
    hide Acceptable, WellFormed, After, Patch, Fold;
    FoldIsReplay(c.before, c.accounts, c.start, c.run, k);
  }

  // ---------------------------------------------------------------- from any state of a source

  /** Through `end`, the chain the source reads is the cohort's traces. */
  ghost predicate Sees(raw: Source, c: Cohort, end: nat)
    requires Accepted(c.accounts, c.run)
  {
    && ValidSource(raw) && raw.prefix.None? && raw.cohort == c.accounts && raw.start == c.start
    && SameRange(raw.blocks, SourceOf(c).blocks, c.start, end)
  }

  lemma SeenStands(s: Source, raw: Source, c: Cohort, end: nat)
    requires Traced(c, end) && Sees(raw, c, end) && StandsFor(s, raw, end)
    ensures StandsFor(s, SourceOf(c), end)
  {
    hide Acceptable, WellFormed, After, Patch, Compact;
    SourceValid(c);
    if s.prefix.Some? { CompactionTransparent(raw, SourceOf(c), s.prefix.value.number); }
  }

  /** What one stored source publishes over a base is the replayed chain. */
  ghost predicate Publishes(s: Source, c: Cohort, base: Option<Checkpoint>, end: nat, k: Key)
    requires Accepted(c.accounts, c.run)
  {
    if k.Slot? then Read(AggregateStorage([s], base, end), k) == Read(Final(c), k)
    else
      var observed := ObservedFields([s], base, end);
      Read(Final(c), k) == if k in observed then observed[k] else Read(c.before, k)
  }

  lemma StoredPublishes(s: Source, raw: Source, c: Cohort, base: Option<Checkpoint>, end: nat, k: Key)
    requires Traced(c, end) && StartsFrom(c, base) && Sees(raw, c, end) && StandsFor(s, raw, end)
    requires Coherent([s], base) && k.account in c.accounts
    ensures Publishes(s, c, base, end, k)
  {
    SeenStands(s, raw, c, end);
    if k.Slot? { CheckpointSlotsAreReplayed(c, [s], base, end, 0, k); }
    else { CheckpointFieldsAreReplayed(c, [s], base, end, 0, k); }
  }

  /** In every reachable state of a source no checkpoint covers yet, compaction interrupted or
      not, what it stores publishes the replayed chain at every block from its prefix on. */
  lemma FirstCheckpointIsReplayed(w: Native.World, t: Native.State, c: Cohort, end: nat, k: Key)
    requires Native.Honest(w) && Native.Reachable(w, t) && t.ready == {} && t.saved.Some?
    requires Native.From(w, t) <= end <= t.saved.value.number
    requires Traced(c, end) && StartsFrom(c, None) && Sees(w.raw, c, end) && k.account in c.accounts
    ensures Publishes(Native.Stored(w, t), c, None, end, k)
  {
    Native.StoredThrough(w, t, end);
    SingleCoherent(Native.Stored(w, t));
    StoredPublishes(Native.Stored(w, t), w.raw, c, None, end, k);
  }

  /** The source that a continuation of the base reads. */
  lemma ContinuedSource(w: Native.World, t: Native.State, base: Checkpoint, end: nat) returns (s: Source)
    requires Native.Honest(w) && Native.Reachable(w, t) && base.number in t.protected && t.saved.Some?
    requires base.number < end <= t.saved.value.number && ValidBase(Some(base))
    requires t.pointer.Some? ==> t.pointer.value.prefix.number <= base.number
    ensures var stored := Native.Stored(w, t);
            SelectPrefix(stored.(start := base.number + 1), w.raw.start, stored.prefix) == Ok(s)
    ensures StandsFor(s, w.raw.(start := base.number + 1), end) && Coherent([s], Some(base))
  {
    Native.ContinuationsStand(w, t, base.number, end);
    s := SelectPrefix(Native.Stored(w, t).(start := base.number + 1), w.raw.start, Native.Stored(w, t).prefix).value;
  }

  /** In every reachable state, after any compactions and cleanups, a protected checkpoint that
      no prefix reaches beyond is continued to the replayed chain at every later saved block. */
  lemma ContinuationIsReplayed(w: Native.World, t: Native.State, c: Cohort, base: Checkpoint, end: nat, k: Key)
    requires Native.Honest(w) && Native.Reachable(w, t) && base.number in t.protected && t.saved.Some?
    requires base.number < end <= t.saved.value.number
    requires t.pointer.Some? ==> t.pointer.value.prefix.number <= base.number
    requires ValidBase(Some(base)) && Traced(c, end) && StartsFrom(c, Some(base))
             && Sees(w.raw.(start := base.number + 1), c, end)
    requires k.account in c.accounts
    ensures var s := Native.Stored(w, t);
            var r := SelectPrefix(s.(start := base.number + 1), w.raw.start, s.prefix);
            r.Ok? && Publishes(r.value, c, Some(base), end, k)
  {
    var s := ContinuedSource(w, t, base, end);
    StoredPublishes(s, w.raw.(start := base.number + 1), c, Some(base), end, k);
  }
}
