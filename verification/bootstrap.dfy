/** Chunked replay: bounded ingestion and compaction in turn, until the stop block. */
module Bootstrap {
  import opened Words
  import opened Projection
  import opened Aggregation
  import opened Compaction
  import opened History

  /** What is left after the compacted partitions are dropped still reaches the tip. */
  lemma StillReaches(raw: Source, rows: map<nat, BlockState>, kept: map<nat, BlockState>, part: Partitioning, tip: nat)
    requires RowsHonest(raw, rows) && raw.start <= tip && tip in rows
    requires kept == map n | n in rows && part(n) !in PartitionsBefore(rows.Keys, part, tip) :: rows[n]
    ensures RowsHonest(raw, kept) && Reaches(raw, kept, Some(Compact(raw, tip)), tip)
  {
    hide Compact;
    DropKeeps(rows.Keys, part, tip, PartitionsBefore(rows.Keys, part, tip), tip);
  }

  ghost predicate Final(raw: Source, stop: nat) {
    forall n :: raw.start <= n < stop ==> n in raw.blocks
  }

  /** The chain is final through the stop block and no sink run is interrupted before it. */
  ghost predicate Undisturbed(raw: Source, stop: nat, limits: nat -> nat) {
    Final(raw, stop) && forall i :: stop <= limits(i)
  }

  /** One bootstrap run over the finalized chain `raw`. */
  class ReplayRun {
    const raw: Source
    const part: Partitioning
    const covered: bool                        // a checkpoint already holds some of the accounts
    var tip: Option<nat>                       // the block of the native cursor
    var rows: map<nat, BlockState>
    ghost var prefix: Option<Prefix>

    ghost predicate Valid()
      reads this
    {
      && ValidSource(raw) && raw.prefix.None? && RowsHonest(raw, rows)
      && (tip.None? ==> prefix.None?) && (tip.Some? ==> Reaches(raw, rows, prefix, tip.value))
    }

    function Next(): nat
      reads this
    {
      if tip.Some? then tip.value + 1 else raw.start
    }

    /** Runs the sink to the exclusive bound; it may be interrupted at `limit`, or find no
        finalized block. Success means the cursor is exactly at bound - 1. */
    method Ingest(bound: nat, limit: nat) returns (r: Result<nat>)
      requires Valid() && raw.start < bound
      modifies this`tip, this`rows
      ensures Valid()
      ensures old(tip.Some?) ==> tip.Some? && old(tip.value) <= tip.value
      ensures r.Ok? ==> tip == Some(bound - 1) && r.value == bound - 1
      ensures r.Err? ==> tip == old(tip) || tip.value < bound - 1
      ensures old(Next()) <= bound <= limit && Final(raw, bound) ==> r.Ok?
    {
      hide Compact, ValidSource;
      if tip.Some? && tip.value >= bound - 1 {
        if tip.value == bound - 1 { return Ok(tip.value); }
        return Err("requested stop precedes the already ingested cursor");
      }
      var n := Next();
      while n < bound && n < limit && n in raw.blocks
        invariant old(Next()) <= n <= bound && n == Next()
        invariant Valid()
        invariant tip == old(tip) || tip == Some(n - 1)
        invariant old(tip.Some?) ==> tip.Some? && old(tip.value) <= tip.value
      {
        rows, tip := rows[n := raw.blocks[n]], Some(n);
        n := n + 1;
      }
      if n < bound { return Err("native sink stopped before its requested final block"); }
      return Ok(n - 1);
    }

    /** Folds everything through the cursor into the prefix and drops what it replaces. */
    method CompactTip() returns (r: Result<nat>)
      requires Valid() && tip.Some?
      modifies this`rows, this`prefix
      ensures Valid()
      ensures r.Ok? <==> !covered
      ensures r.Ok? ==> prefix == Some(Compact(raw, tip.value)) && r.value == tip.value
      ensures r.Err? ==> prefix == old(prefix) && rows == old(rows)
    {
      hide Compact, ValidSource, PartitionsBefore, StandsFor;
      if covered {
        r := Err("accounts already have a checkpoint; use checkpoint continuation and source retention");
      } else {
        var gone := PartitionsBefore(rows.Keys, part, tip.value);
        var kept := map n | n in rows && part(n) !in gone :: rows[n];
        ReachingStands(raw, rows, prefix, tip.value);
        StillReaches(raw, rows, kept, part, tip.value);
        prefix := Some(Compact(Source(raw.cohort, raw.start, rows, prefix), tip.value));
        rows, r := kept, Ok(tip.value);
      }
    }

    /** One turn of the loop: compact what is there, then finish or ingest the next chunk. */
    method Turn(stop: nat, chunk: nat, limit: nat) returns (r: Result<Option<nat>>)
      requires Valid() && raw.start < stop <= U64_MAX && chunk > 0
      modifies this`tip, this`rows, this`prefix
      ensures Valid()
      ensures r.Ok? && r.value.None? ==> old(Next()) < Next() <= stop
      ensures r.Ok? && r.value.Some? ==>
              tip == Some(stop - 1) && prefix == Some(Compact(raw, stop - 1)) && r.value.value == stop - 1
      ensures r.Err? ==> stop < old(Next()) || covered || limit < stop || !Final(raw, stop)
      ensures stop < old(Next()) ==> r.Err?
    {
      hide Compact, ValidSource;
      var next := Next();
      if tip.Some? {
        if tip.value >= U64_MAX { return Err("bootstrap block overflow"); }
        if next > stop { return Err("bootstrap stop precedes the already ingested cursor"); }
        var compacted := CompactTip();
        if compacted.Err? { return Err(compacted.reason); }
        if next == stop { return Ok(Some(compacted.value)); }
      }
      var bound := if next + chunk <= stop then next + chunk else stop;
      var ingested := Ingest(bound, limit);
      if ingested.Err? { return Err(ingested.reason); }
      return Ok(None);
    }

    /** The loop itself: turns until the stop block is compacted or a turn fails. */
    method Resume(stop: nat, chunk: nat, limits: nat -> nat) returns (r: Result<nat>)
      requires Valid() && raw.start < stop <= U64_MAX && chunk > 0
      modifies this`tip, this`rows, this`prefix
      ensures Valid()
      ensures r.Ok? ==> tip == Some(stop - 1) && prefix == Some(Compact(raw, stop - 1)) && r.value == stop - 1
      ensures stop < old(Next()) ==> r.Err?
      ensures r.Err? ==> covered || stop < old(Next()) || !Undisturbed(raw, stop, limits)
    {
      hide Compact, ValidSource;
      var attempt := 0;
      while true
        invariant Valid() && (Next() == old(Next()) || old(Next()) <= Next() <= stop)
        decreases stop - Next()
      {
        var turn := Turn(stop, chunk, limits(attempt));
        if turn.Err? { return Err(turn.reason); }
        if turn.value.Some? { return Ok(turn.value.value); }
        attempt := attempt + 1;
      }
    }

    /** Every successful replay ends with the compaction of the raw history through stop - 1,
        whatever the chunk size, the interruptions of earlier runs and where they stopped;
        and it succeeds unless the request is bad or the sink does not reach the stop block. */
    method Replay(stop: nat, chunk: nat, limits: nat -> nat) returns (r: Result<nat>)
      requires Valid() && stop <= U64_MAX
      modifies this`tip, this`rows, this`prefix
      ensures Valid()
      ensures r.Ok? ==>
              raw.start < stop && tip == Some(stop - 1) && prefix == Some(Compact(raw, stop - 1)) && r.value == stop - 1
      ensures chunk == 0 || stop <= raw.start || covered || stop < old(Next()) ==> r.Err?
      ensures r.Err? ==>
              chunk == 0 || stop <= raw.start || covered || stop < old(Next()) || !Undisturbed(raw, stop, limits)
    {
      hide Compact, ValidSource;
      if chunk == 0 {
        r := Err("bootstrap chunk blocks and budget must be positive integers");
      } else if stop <= raw.start {
        r := Err("bootstrap stop block must be greater than start block (exclusive)");
      } else if covered {
        r := Err("accounts already have a checkpoint; use checkpoint continuation and source retention");
      } else {
        r := Resume(stop, chunk, limits);
      }
    }
  }
}
